/** The recursive-descent parser (`parser/Parser.java`).

    The parser reads the tokens of one tokeniser. The tokeniser does not depend on
    the parser, so the model lexes the input up front: `toks` are the tokens before
    the first EOF token and `eofTok` is that EOF token, which every later call of
    `nextToken()` returns again. The k-th token handed out, counting from 0, is
    `Stream(k)`; each one is a distinct Java object, so the token `lastErrorToken`
    refers to is identified by its index in that stream (-1 for `null`).

    `Integer.parseInt`, `Integer.valueOf` and `String.charAt(0)` throw on some token
    data; the exception is not caught, so the parse is abandoned. The model records
    it in `crashed` and every grammar method then returns at once. */
module Parsing {
  import opened Java
  import opened Wrappers
  import opened Lexer
  import opened Ast

  predicate AllDigits(s: string) {
    forall k :: 0 <= k < |s| ==> '0' <= s[k] <= '9'
  }

  /** `Integer.parseInt` and `Integer.valueOf` on a decimal string: an optional sign,
      then at least one digit, within the range of `int`. None where they throw
      `NumberFormatException`. */
  function ParseInt(s: string): (r: Option<int32>)
    ensures r.Some? ==> s != []
  {
    if s == [] then None
    else if s[0] == '-' || s[0] == '+' then
      if |s| == 1 || !AllDigits(s[1..]) then None
      else
        var v := if s[0] == '-' then -DigitsValue(s[1..]) else DigitsValue(s[1..]);
        if InInt32(v) then Some(v as int32) else None
    else if !AllDigits(s) then None
    else
      var v := DigitsValue(s);
      if InInt32(v) then Some(v as int32) else None
  }

  /** `Integer.parseInt` reads back what `Integer.toString` writes, for every
      non-negative `int`. */
  lemma ParseIntRoundTrip(n: nat)
    requires n < TWO_31
    ensures ParseInt(NatToString(n)) == Some(n as int32)
  {
    NatToStringRoundTrip(n);
  }

  /** The tokeniser drops the first digit of an integer literal, so a one-digit literal
      reaches the parser with empty data, on which `Integer.parseInt` throws. */
  lemma OneDigitLiteralHasNoValue()
    ensures Next("7;", 0).tok.tokenClass.INT_LITERAL?
    ensures ParseInt(Next("7;", 0).tok.data) == None
  {
  }

  /** The token classes a type can start with. */
  predicate IsTypeStart(c: TokenClass) {
    c.INT? || c.CHAR? || c.VOID? || c.STRUCT?
  }

  /** The token classes `parseNoOpExp()` starts an operand on. */
  predicate IsOperandStart(c: TokenClass) {
    c.IDENTIFIER? || c.INT_LITERAL? || c.CHAR_LITERAL? || c.STRING_LITERAL?
    || c.LPAR? || c.ASTERIX? || c.SIZEOF?
  }

  /** The binary operators by binding strength, loosest first: `||` 0, `&&` 1, `== !=` 2,
      `> >= < <=` 3, `+ -` 4, `* / %` 5. */
  function OpLevel(op: Op): nat {
    match op
    case OR => 0
    case AND => 1
    case EQ => 2 case NE => 2
    case GT => 3 case GE => 3 case LT => 3 case LE => 3
    case ADD => 4 case SUB => 4
    case MUL => 5 case DIV => 5 case MOD => 5
  }

  /** The level of the operator a token class stands for; -1 for any other token. */
  function TokenLevel(c: TokenClass): int {
    match c
    case OR => 0
    case AND => 1
    case EQ => 2 case NE => 2
    case GT => 3 case GE => 3 case LT => 3 case LE => 3
    case PLUS => 4 case MINUS => 4
    case ASTERIX => 5 case DIV => 5 case REM => 5
    case _ => -1
  }

  /** The operator a token of some level stands for: the `new BinOp(left, op, right)` of
      the branch of the `*Rep` method that accepts the token. */
  function BinaryOp(c: TokenClass): (op: Op)
    requires TokenLevel(c) >= 0
    ensures OpLevel(op) == TokenLevel(c)
  {
    match c
    case OR => Op.OR
    case AND => Op.AND
    case EQ => Op.EQ case NE => Op.NE
    case GT => Op.GT case GE => Op.GE case LT => Op.LT case LE => Op.LE
    case PLUS => ADD case MINUS => SUB
    case ASTERIX => MUL case DIV => Op.DIV case REM => MOD
  }

  /** `r` is `left` with zero or more binary operations of one level stacked on its
      left spine: the shape a left-associative `*Rep` loop builds. */
  predicate LeftSpine(r: Expr, left: Expr, level: nat)
    decreases r
  {
    r == left || (r.BinOp? && OpLevel(r.op) == level && r.ty.None? && LeftSpine(r.left, left, level))
  }

  /** Stacking more operations of the level on a spine keeps it a spine over the same
      left operand. */
  lemma {:induction false} LeftSpineTrans(r: Expr, mid: Expr, left: Expr, level: nat)
    requires LeftSpine(r, mid, level) && LeftSpine(mid, left, level)
    ensures LeftSpine(r, left, level)
    decreases r
  {
    if r != mid {
      LeftSpineTrans(r.left, mid, left, level);
    }
  }

  /** A token stream is the tokens before EOF, then the EOF token. */
  lemma LexSplits(ts: seq<Token>)
    requires |ts| >= 1 && ts[|ts| - 1].tokenClass.EOF?
    requires forall k :: 0 <= k < |ts| - 1 ==> !ts[k].tokenClass.EOF?
    ensures ts == ts[..|ts| - 1] + [ts[|ts| - 1]]
    ensures forall t <- ts[..|ts| - 1] :: !t.tokenClass.EOF?
    ensures ts[0] == if |ts| == 1 then ts[|ts| - 1] else ts[..|ts| - 1][0]
  {
  }

  /** The tokens of a stream before its EOF token, and that token. */
  function SplitAtEof(ts: seq<Token>): (r: (seq<Token>, Token))
    requires |ts| >= 1 && ts[|ts| - 1].tokenClass.EOF?
    requires forall k :: 0 <= k < |ts| - 1 ==> !ts[k].tokenClass.EOF?
    ensures r.0 + [r.1] == ts && r.1.tokenClass.EOF?
    ensures forall t <- r.0 :: !t.tokenClass.EOF?
  {
    LexSplits(ts);
    (ts[..|ts| - 1], ts[|ts| - 1])
  }

  /** What a grammar rule builds from the tokens at one index: the node, the index of
      the first token it leaves, and the next allocation site. */
  datatype Parse<T> = Parse(val: T, end: nat, sites: nat)

  class Parser {
    const toks: seq<Token>
    const eofTok: Token
    /** The index in the token stream of the current token. */
    var ci: nat
    var token: Token
    /** The look-ahead queue: the tokens after the current one, already read. */
    var buffer: seq<Token>
    var error: nat
    var lastErrorToken: int
    /** The number of type objects the parser has allocated. */
    var nextSite: nat
    var crashed: bool

    function Stream(k: nat): Token {
      if k < |toks| then toks[k] else eofTok
    }

    /** The `n` tokens of the stream from index `from` on. */
    function Window(from: nat, n: nat): (w: seq<Token>)
      ensures |w| == n
      decreases n
    {
      if n == 0 then [] else [Stream(from)] + Window(from + 1, n - 1)
    }

    lemma {:induction false} WindowAt(from: nat, n: nat, k: nat)
      requires k < n
      ensures Window(from, n)[k] == Stream(from + k)
      decreases n
    {
      var rest := Window(from + 1, n - 1);
      assert Window(from, n) == [Stream(from)] + rest;
      if k > 0 {
        WindowAt(from + 1, n - 1, k - 1);
        assert ([Stream(from)] + rest)[k] == rest[k - 1];
      }
    }

    lemma {:induction false} WindowGrows(from: nat, n: nat)
      ensures Window(from, n) + [Stream(from + n)] == Window(from, n + 1)
      decreases n
    {
      if n > 0 {
        WindowGrows(from + 1, n - 1);
        assert [Stream(from)] + Window(from + 1, n - 1) + [Stream(from + n)]
            == [Stream(from)] + (Window(from + 1, n - 1) + [Stream(from + 1 + (n - 1))]);
      }
    }

    // ------------------------------------------------ the grammar on the token stream

    /* What each grammar method builds when the parse ends with no error and no crash,
       as a function of the tokens from the index it starts at and of the next
       allocation site. None where the tokens lead the method to `error(...)` or to an
       exception. */

    /** The tokens left before EOF from index `pos` on. */
    function Remaining(pos: nat): nat {
      if pos < |toks| then |toks| - pos else 0
    }

    /** `int`, `char`, `void`, or `struct` and a name: the first half of `parseType()`. */
    function BaseTypeAt(pos: nat, site: nat): (r: Option<Parse<Type>>)
      ensures r.Some? ==> r.value.end > pos
    {
      var c := Stream(pos).tokenClass;
      if c.INT? then Some(Parse(IntType, pos + 1, site))
      else if c.CHAR? then Some(Parse(CharType, pos + 1, site))
      else if c.VOID? then Some(Parse(VoidType, pos + 1, site))
      else if c.STRUCT? && Stream(pos + 1).tokenClass.IDENTIFIER? then
        Some(Parse(StructType(Parsed(site), Stream(pos + 1).data), pos + 2, site + 1))
      else None
    }

    /** One new `PointerType` around `t` for each `*`. */
    function PointersAt(t: Type, pos: nat, site: nat): (r: Option<Parse<Type>>)
      requires eofTok.tokenClass.EOF?
      ensures r.Some? && r.value.end >= pos
      decreases Remaining(pos)
    {
      if Stream(pos).tokenClass.ASTERIX? then PointersAt(PointerType(Parsed(site), t), pos + 1, site + 1)
      else Some(Parse(t, pos, site))
    }

    /** `parseType()`. */
    function TypeAt(pos: nat, site: nat): (r: Option<Parse<Type>>)
      requires eofTok.tokenClass.EOF?
      ensures r.Some? ==> r.value.end > pos
    {
      match BaseTypeAt(pos, site)
      case None => None
      case Some(Parse(b, p1, s1)) => PointersAt(b, p1, s1)
    }

    /** `[`, an integer literal whose text `Integer.valueOf` reads, `]`: the length and
        the index after `]`. */
    function ArrayDeclAt(pos: nat): (r: Option<(int32, nat)>)
      ensures r.Some? ==> r.value.1 == pos + 3
    {
      if !Stream(pos).tokenClass.LSBR? || !Stream(pos + 1).tokenClass.INT_LITERAL? then None
      else match ParseInt(Stream(pos + 1).data)
        case None => None
        case Some(n) => if !Stream(pos + 2).tokenClass.RSBR? then None else Some((n, pos + 3))
    }

    /** `parseVarDecl()`. */
    function VarDeclAt(pos: nat, site: nat): (r: Option<Parse<VarDecl>>)
      requires eofTok.tokenClass.EOF?
      ensures r.Some? ==> r.value.end > pos
    {
      match TypeAt(pos, site)
      case None => None
      case Some(Parse(t, p1, s1)) => DeclaratorAt(t, p1, s1)
    }

    /** The rest of `parseVarDecl()` after the type: a name, then `;`, or an array
        declaration and `;`. */
    function DeclaratorAt(t: Type, pos: nat, site: nat): (r: Option<Parse<VarDecl>>)
      ensures r.Some? ==> r.value.end > pos
    {
      if !Stream(pos).tokenClass.IDENTIFIER? then None
      else
        var name := Stream(pos).data;
        if Stream(pos + 1).tokenClass.SC? then Some(Parse(VarDecl(Parsed(site), t, name), pos + 2, site + 1))
        else if !Stream(pos + 1).tokenClass.LSBR? then None
        else ArraySuffixAt(t, name, pos + 1, site)
    }

    /** The array branch of `parseVarDecl()`: an array declaration and `;`, which wrap
        the type in a new `ArrayType` of the literal's length. */
    function ArraySuffixAt(t: Type, name: string, pos: nat, site: nat): (r: Option<Parse<VarDecl>>)
      ensures r.Some? ==> r.value.end > pos
    {
      match ArrayDeclAt(pos)
      case None => None
      case Some((n, p2)) =>
        if !Stream(p2).tokenClass.SC? then None
        else Some(Parse(VarDecl(Parsed(site + 1), ArrayType(Parsed(site), t, n), name), p2 + 1, site + 2))
    }

    /** `parseParams()`: nothing unless a type starts here. */
    function ParamsAt(pos: nat, site: nat): (r: Option<Parse<seq<VarDecl>>>)
      requires eofTok.tokenClass.EOF?
      ensures r.Some? ==> r.value.end >= pos
    {
      if !IsTypeStart(Stream(pos).tokenClass) then Some(Parse([], pos, site))
      else match ParamAt(pos, site)
        case None => None
        case Some(Parse(v, p1, s1)) =>
          match ExtraParamsAt(p1, s1)
          case None => None
          case Some(Parse(rest, p2, s2)) => Some(Parse([v] + rest, p2, s2))
    }

    /** A type and a name: one parameter. */
    function ParamAt(pos: nat, site: nat): (r: Option<Parse<VarDecl>>)
      requires eofTok.tokenClass.EOF?
      ensures r.Some? ==> r.value.end > pos
    {
      match TypeAt(pos, site)
      case None => None
      case Some(Parse(t, p1, s1)) =>
        if !Stream(p1).tokenClass.IDENTIFIER? then None
        else Some(Parse(VarDecl(Parsed(s1), t, Stream(p1).data), p1 + 1, s1 + 1))
    }

    /** `parseExtraParam()`: `,` and a parameter, for as long as a comma follows. */
    function ExtraParamsAt(pos: nat, site: nat): (r: Option<Parse<seq<VarDecl>>>)
      requires eofTok.tokenClass.EOF?
      ensures r.Some? ==> r.value.end >= pos
      decreases Remaining(pos)
    {
      if !Stream(pos).tokenClass.COMMA? then Some(Parse([], pos, site))
      else match ParamAt(pos + 1, site)
        case None => None
        case Some(Parse(v, p1, s1)) =>
          match ExtraParamsAt(p1, s1)
          case None => None
          case Some(Parse(rest, p2, s2)) => Some(Parse([v] + rest, p2, s2))
    }

    /** An expression of binding level `k` or tighter: `parseOr()` for 0 down to
        `parseMultiplication()` for 5, and `parseUnary()` for 6. */
    function ExprAt(k: nat, pos: nat, site: nat): (r: Option<Parse<Expr>>)
      requires eofTok.tokenClass.EOF? && k <= 6
      ensures r.Some? ==> r.value.end > pos
      decreases Remaining(pos), 2 * (6 - k) + 14
    {
      if k == 6 then UnaryAt(pos, site)
      else match ExprAt(k + 1, pos, site)
        case None => None
        case Some(Parse(left, p1, s1)) => RepAt(k, left, p1, s1)
    }

    /** The `*Rep(left)` method of level `k`: while an operator of the level follows,
        `BinOp(left, op, right)` with `right` of the next level becomes the new left. */
    function RepAt(k: nat, left: Expr, pos: nat, site: nat): (r: Option<Parse<Expr>>)
      requires eofTok.tokenClass.EOF? && k < 6
      ensures r.Some? ==> r.value.end >= pos
      decreases Remaining(pos), 2 * (6 - k) + 13
    {
      var c := Stream(pos).tokenClass;
      if TokenLevel(c) != k then Some(Parse(left, pos, site))
      else match ExprAt(k + 1, pos + 1, site)
        case None => None
        case Some(Parse(right, p1, s1)) => RepAt(k, BinOp(left, BinaryOp(c), right, None), p1, s1)
    }

    /** `parseUnary()`. */
    function UnaryAt(pos: nat, site: nat): (r: Option<Parse<Expr>>)
      requires eofTok.tokenClass.EOF?
      ensures r.Some? ==> r.value.end > pos
      decreases Remaining(pos), 13
    {
      if Stream(pos).tokenClass.MINUS? then
        match UnaryAt(pos + 1, site)
        case None => None
        case Some(Parse(x, p1, s1)) => Some(Parse(BinOp(IntLiteral(0), Op.SUB, x, None), p1, s1))
      else OperandAt(pos, site)
    }

    /** `parseNoOpExp()`: an operand and at most one access after it. */
    function OperandAt(pos: nat, site: nat): (r: Option<Parse<Expr>>)
      requires eofTok.tokenClass.EOF?
      ensures r.Some? ==> r.value.end > pos
      decreases Remaining(pos), 12
    {
      match PrimaryAt(pos, site)
      case None => None
      case Some(Parse(e, p1, s1)) => AccessAt(e, p1, s1)
    }

    /** The operand of `parseNoOpExp()`, by its first token: an integer literal that
        does not fit an `int` and a character literal without a character parse to
        nothing. */
    function PrimaryAt(pos: nat, site: nat): (r: Option<Parse<Expr>>)
      requires eofTok.tokenClass.EOF?
      ensures r.Some? ==> r.value.end > pos
      decreases Remaining(pos), 11
    {
      var t := Stream(pos);
      if t.tokenClass.IDENTIFIER? then IdentOrCallAt(pos, site)
      else if t.tokenClass.INT_LITERAL? then
        match ParseInt(t.data)
        case None => None
        case Some(n) => Some(Parse(IntLiteral(n), pos + 1, site))
      else if t.tokenClass.CHAR_LITERAL? then
        if t.data == [] then None else Some(Parse(ChrLiteral(t.data[0]), pos + 1, site))
      else if t.tokenClass.STRING_LITERAL? then Some(Parse(StrLiteral(t.data), pos + 1, site))
      else if t.tokenClass.LPAR? then BracketOrCastAt(pos, site)
      else if t.tokenClass.ASTERIX? then ValueAtAt(pos, site)
      else if t.tokenClass.SIZEOF? then SizeOfAt(pos, site)
      else None
    }

    /** `parseIdentOrFunCall()`: a call when `(` follows the name, else a variable. */
    function IdentOrCallAt(pos: nat, site: nat): (r: Option<Parse<Expr>>)
      requires eofTok.tokenClass.EOF?
      ensures r.Some? ==> r.value.end > pos
      decreases Remaining(pos), 10
    {
      var t := Stream(pos);
      if !t.tokenClass.IDENTIFIER? then None
      else if !Stream(pos + 1).tokenClass.LPAR? then Some(Parse(VarExpr(t.data, None, None), pos + 1, site))
      else match ArgsAt(pos + 1, site)
        case None => None
        case Some(Parse(args, p1, s1)) => Some(Parse(FunCallExpr(t.data, args, None, None), p1, s1))
    }

    /** `parseValueAt()`: `*` and an expression. */
    function ValueAtAt(pos: nat, site: nat): (r: Option<Parse<Expr>>)
      requires eofTok.tokenClass.EOF?
      ensures r.Some? ==> r.value.end > pos
      decreases Remaining(pos), 10
    {
      if !Stream(pos).tokenClass.ASTERIX? then None
      else match ExprAt(0, pos + 1, site)
        case None => None
        case Some(Parse(x, p1, s1)) => Some(Parse(ValueAtExpr(x, None), p1, s1))
    }

    /** `parseSizeOf()`: `sizeof ( type )`. */
    function SizeOfAt(pos: nat, site: nat): (r: Option<Parse<Expr>>)
      requires eofTok.tokenClass.EOF?
      ensures r.Some? ==> r.value.end > pos
      decreases Remaining(pos), 10
    {
      if !Stream(pos).tokenClass.SIZEOF? || !Stream(pos + 1).tokenClass.LPAR? then None
      else match TypeAt(pos + 2, site)
        case None => None
        case Some(Parse(ty, p1, s1)) =>
          if !Stream(p1).tokenClass.RPAR? then None else Some(Parse(SizeOfExpr(ty, None), p1 + 1, s1))
    }

    /** `parseBracketOrTypeCast()`: after `(`, a cast when a type starts, else a
        bracketed expression. */
    function BracketOrCastAt(pos: nat, site: nat): (r: Option<Parse<Expr>>)
      requires eofTok.tokenClass.EOF?
      ensures r.Some? ==> r.value.end > pos
      decreases Remaining(pos), 10
    {
      if !Stream(pos).tokenClass.LPAR? then None
      else if IsTypeStart(Stream(pos + 1).tokenClass) then CastAt(pos + 1, site)
      else BracketsAt(pos + 1, site)
    }

    /** `parseTypeCast()`: `type ) exp`, the `(` already consumed. */
    function CastAt(pos: nat, site: nat): (r: Option<Parse<Expr>>)
      requires eofTok.tokenClass.EOF?
      ensures r.Some? ==> r.value.end > pos
      decreases Remaining(pos), 9
    {
      match TypeAt(pos, site)
      case None => None
      case Some(Parse(ty, p1, s1)) =>
        if !Stream(p1).tokenClass.RPAR? then None
        else match ExprAt(0, p1 + 1, s1)
          case None => None
          case Some(Parse(x, p2, s2)) => Some(Parse(TypecastExpr(ty, x, None), p2, s2))
    }

    /** `parseBrackets()`: `exp )`, the `(` already consumed; no node of its own. */
    function BracketsAt(pos: nat, site: nat): (r: Option<Parse<Expr>>)
      requires eofTok.tokenClass.EOF?
      ensures r.Some? ==> r.value.end > pos
      decreases Remaining(pos), 27
    {
      match ExprAt(0, pos, site)
      case None => None
      case Some(Parse(x, p1, s1)) => if !Stream(p1).tokenClass.RPAR? then None else Some(Parse(x, p1 + 1, s1))
    }

    /** `parseArrayOrFieldAccess(prev)`: one `[exp]` or `.name`, or nothing. */
    function AccessAt(prev: Expr, pos: nat, site: nat): (r: Option<Parse<Expr>>)
      requires eofTok.tokenClass.EOF?
      ensures r.Some? ==> r.value.end >= pos
      ensures r.Some? ==> r.value.val == prev || r.value.val.ArrayAccessExpr? || r.value.val.FieldAccessExpr?
      decreases Remaining(pos), 8
    {
      var c := Stream(pos).tokenClass;
      if c.LSBR? then ArrayAccessAt(prev, pos, site)
      else if c.DOT? then FieldAccessAt(prev, pos, site)
      else Some(Parse(prev, pos, site))
    }

    /** `parseFieldAccess(struct)`: `.` and a field name. */
    function FieldAccessAt(struct: Expr, pos: nat, site: nat): (r: Option<Parse<Expr>>)
      ensures r.Some? ==> r.value.end > pos
    {
      if !Stream(pos).tokenClass.DOT? || !Stream(pos + 1).tokenClass.IDENTIFIER? then None
      else Some(Parse(FieldAccessExpr(struct, Stream(pos + 1).data, None), pos + 2, site))
    }

    /** `parseArrayAccess(arr)`: `[ exp ]`. */
    function ArrayAccessAt(arr: Expr, pos: nat, site: nat): (r: Option<Parse<Expr>>)
      requires eofTok.tokenClass.EOF?
      ensures r.Some? ==> r.value.end > pos
      decreases Remaining(pos), 7
    {
      if !Stream(pos).tokenClass.LSBR? then None
      else match ExprAt(0, pos + 1, site)
        case None => None
        case Some(Parse(i, p1, s1)) =>
          if !Stream(p1).tokenClass.RSBR? then None else Some(Parse(ArrayAccessExpr(arr, i, None), p1 + 1, s1))
    }

    /** `parseFunCall()`: `(`, the arguments, `)`. */
    function ArgsAt(pos: nat, site: nat): (r: Option<Parse<seq<Expr>>>)
      requires eofTok.tokenClass.EOF?
      ensures r.Some? ==> r.value.end > pos
      decreases Remaining(pos), 6
    {
      if !Stream(pos).tokenClass.LPAR? then None
      else match MaybeArgsAt(pos + 1, site)
        case None => None
        case Some(Parse(args, p1, s1)) =>
          if !Stream(p1).tokenClass.RPAR? then None else Some(Parse(args, p1 + 1, s1))
    }

    /** `parseMaybeArgs()`: nothing before `)`, else an expression and further
        arguments. */
    function MaybeArgsAt(pos: nat, site: nat): (r: Option<Parse<seq<Expr>>>)
      requires eofTok.tokenClass.EOF?
      ensures r.Some? ==> r.value.end >= pos
      decreases Remaining(pos), 27
    {
      if Stream(pos).tokenClass.RPAR? then Some(Parse([], pos, site))
      else match ExprAt(0, pos, site)
        case None => None
        case Some(Parse(e, p1, s1)) =>
          match ExtraArgsAt(p1, s1)
          case None => None
          case Some(Parse(rest, p2, s2)) => Some(Parse([e] + rest, p2, s2))
    }

    /** `parseExtraArg()`: `, exp` for as long as a comma follows. */
    function ExtraArgsAt(pos: nat, site: nat): (r: Option<Parse<seq<Expr>>>)
      requires eofTok.tokenClass.EOF?
      ensures r.Some? ==> r.value.end >= pos
      decreases Remaining(pos), 4
    {
      if !Stream(pos).tokenClass.COMMA? then Some(Parse([], pos, site))
      else match ExprAt(0, pos + 1, site)
        case None => None
        case Some(Parse(e, p1, s1)) =>
          match ExtraArgsAt(p1, s1)
          case None => None
          case Some(Parse(rest, p2, s2)) => Some(Parse([e] + rest, p2, s2))
    }

    /** `parseVarDeclRep()`: declarations while a type starts here and the token after
        next is not `(`, which would make it a function declaration. */
    function VarDeclsAt(pos: nat, site: nat): (r: Option<Parse<seq<VarDecl>>>)
      requires eofTok.tokenClass.EOF?
      ensures r.Some? ==> r.value.end >= pos
      decreases Remaining(pos)
    {
      if !IsTypeStart(Stream(pos).tokenClass) || Stream(pos + 2).tokenClass.LPAR? then Some(Parse([], pos, site))
      else match VarDeclAt(pos, site)
        case None => None
        case Some(Parse(v, p1, s1)) =>
          match VarDeclsAt(p1, s1)
          case None => None
          case Some(Parse(rest, p2, s2)) => Some(Parse([v] + rest, p2, s2))
    }

    /** `(`, an expression, `)`: the condition of `while` and `if`. */
    function CondAt(pos: nat, site: nat): (r: Option<Parse<Expr>>)
      requires eofTok.tokenClass.EOF?
      ensures r.Some? ==> r.value.end > pos
    {
      if !Stream(pos).tokenClass.LPAR? then None else BracketsAt(pos + 1, site)
    }

    /** `parseMaybeAssign()`: `= exp`, or nothing. */
    function MaybeAssignAt(pos: nat, site: nat): (r: Option<Parse<Option<Expr>>>)
      requires eofTok.tokenClass.EOF?
      ensures r.Some? ==> r.value.end >= pos
    {
      if !Stream(pos).tokenClass.ASSIGN? then Some(Parse(None, pos, site))
      else match ExprAt(0, pos + 1, site)
        case None => None
        case Some(Parse(e, p1, s1)) => Some(Parse(Some(e), p1, s1))
    }

    /** `parseMaybeExp()`: nothing before `;`, else an expression. */
    function MaybeExpAt(pos: nat, site: nat): (r: Option<Parse<Option<Expr>>>)
      requires eofTok.tokenClass.EOF?
      ensures r.Some? ==> r.value.end >= pos
    {
      if Stream(pos).tokenClass.SC? then Some(Parse(None, pos, site))
      else match ExprAt(0, pos, site)
        case None => None
        case Some(Parse(e, p1, s1)) => Some(Parse(Some(e), p1, s1))
    }

    /** `parseBlock()`: `{`, declarations, statements, `}`. */
    function BlockAt(pos: nat, site: nat): (r: Option<Parse<Block>>)
      requires eofTok.tokenClass.EOF?
      ensures r.Some? ==> r.value.end > pos
      decreases Remaining(pos), 1
    {
      if !Stream(pos).tokenClass.LBRA? then None
      else match VarDeclsAt(pos + 1, site)
        case None => None
        case Some(Parse(vars, p1, s1)) =>
          match StmtsAt(p1, s1)
          case None => None
          case Some(Parse(code, p2, s2)) =>
            if !Stream(p2).tokenClass.RBRA? then None else Some(Parse(Block(vars, code), p2 + 1, s2))
    }

    /** `parseStmtRep()`: statements until `}` or EOF. */
    function StmtsAt(pos: nat, site: nat): (r: Option<Parse<seq<Stmt>>>)
      requires eofTok.tokenClass.EOF?
      ensures r.Some? ==> r.value.end >= pos
      decreases Remaining(pos), 3
    {
      if Stream(pos).tokenClass.RBRA? || Stream(pos).tokenClass.EOF? then Some(Parse([], pos, site))
      else match StmtAt(pos, site)
        case None => None
        case Some(Parse(s, p1, s1)) =>
          match StmtsAt(p1, s1)
          case None => None
          case Some(Parse(rest, p2, s2)) => Some(Parse([s] + rest, p2, s2))
    }

    /** `parseStmt()`: the first token picks a block, `while`, `if` or `return`;
        anything else starts an expression statement. */
    function StmtAt(pos: nat, site: nat): (r: Option<Parse<Stmt>>)
      requires eofTok.tokenClass.EOF?
      ensures r.Some? ==> r.value.end > pos
      decreases Remaining(pos), 2
    {
      var c := Stream(pos).tokenClass;
      if c.LBRA? then
        match BlockAt(pos, site)
        case None => None
        case Some(Parse(b, p1, s1)) => Some(Parse(BlockStmt(b), p1, s1))
      else if c.WHILE? then WhileAt(pos, site)
      else if c.IF? then IfAt(pos, site)
      else if c.RETURN? then ReturnAt(pos, site)
      else ExpStmtAt(pos, site)
    }

    /** `while`, the condition, the body. */
    function WhileAt(pos: nat, site: nat): (r: Option<Parse<Stmt>>)
      requires eofTok.tokenClass.EOF?
      ensures r.Some? ==> r.value.end > pos
      decreases Remaining(pos), 1
    {
      if !Stream(pos).tokenClass.WHILE? then None
      else match CondAt(pos + 1, site)
        case None => None
        case Some(Parse(e, p1, s1)) =>
          match StmtAt(p1, s1)
          case None => None
          case Some(Parse(body, p2, s2)) => Some(Parse(While(e, body), p2, s2))
    }

    /** `if`, the condition, the then-branch, an optional else-branch. */
    function IfAt(pos: nat, site: nat): (r: Option<Parse<Stmt>>)
      requires eofTok.tokenClass.EOF?
      ensures r.Some? ==> r.value.end > pos
      decreases Remaining(pos), 1
    {
      if !Stream(pos).tokenClass.IF? then None
      else match CondAt(pos + 1, site)
        case None => None
        case Some(Parse(e, p1, s1)) =>
          match StmtAt(p1, s1)
          case None => None
          case Some(Parse(code, p2, s2)) =>
            match MaybeElseAt(p2, s2)
            case None => None
            case Some(Parse(el, p3, s3)) => Some(Parse(If(e, code, el), p3, s3))
    }

    /** `return`, a value unless `;` follows, `;`. */
    function ReturnAt(pos: nat, site: nat): (r: Option<Parse<Stmt>>)
      requires eofTok.tokenClass.EOF?
      ensures r.Some? ==> r.value.end > pos
    {
      if !Stream(pos).tokenClass.RETURN? then None
      else match MaybeExpAt(pos + 1, site)
        case None => None
        case Some(Parse(v, p1, s1)) =>
          if !Stream(p1).tokenClass.SC? then None else Some(Parse(Return(v), p1 + 1, s1))
    }

    /** An expression, `= exp` if an assignment follows, then `;`. */
    function ExpStmtAt(pos: nat, site: nat): (r: Option<Parse<Stmt>>)
      requires eofTok.tokenClass.EOF?
      ensures r.Some? ==> r.value.end > pos
    {
      match ExprAt(0, pos, site)
      case None => None
      case Some(Parse(e, p1, s1)) =>
        match MaybeAssignAt(p1, s1)
        case None => None
        case Some(Parse(o, p2, s2)) =>
          if !Stream(p2).tokenClass.SC? then None
          else Some(Parse(if o.None? then ExprStmt(e) else Assign(e, o.value), p2 + 1, s2))
    }

    /** `parseMaybeElse()`: `else stmt`, or no else branch. */
    function MaybeElseAt(pos: nat, site: nat): (r: Option<Parse<Option<Stmt>>>)
      requires eofTok.tokenClass.EOF?
      ensures r.Some? ==> r.value.end >= pos
      decreases Remaining(pos), 0
    {
      if !Stream(pos).tokenClass.ELSE? then Some(Parse(None, pos, site))
      else match StmtAt(pos + 1, site)
        case None => None
        case Some(Parse(s, p1, s1)) => Some(Parse(Some(s), p1, s1))
    }

    /** What `parseFunDecl()` reads before the block: type, name, `(`, parameters, `)`. */
    function FunHeaderAt(pos: nat, site: nat): (r: Option<Parse<(Type, string, seq<VarDecl>)>>)
      requires eofTok.tokenClass.EOF?
      ensures r.Some? ==> r.value.end > pos
    {
      match TypeAt(pos, site)
      case None => None
      case Some(Parse(t, p1, s1)) =>
        if !Stream(p1).tokenClass.IDENTIFIER? then None
        else match ParamListAt(p1 + 1, s1)
          case None => None
          case Some(Parse(ps, p2, s2)) => Some(Parse((t, Stream(p1).data, ps), p2, s2))
    }

    /** `(`, the parameters, `)`. */
    function ParamListAt(pos: nat, site: nat): (r: Option<Parse<seq<VarDecl>>>)
      requires eofTok.tokenClass.EOF?
      ensures r.Some? ==> r.value.end > pos
    {
      if !Stream(pos).tokenClass.LPAR? then None
      else match ParamsAt(pos + 1, site)
        case None => None
        case Some(Parse(ps, p1, s1)) =>
          if !Stream(p1).tokenClass.RPAR? then None else Some(Parse(ps, p1 + 1, s1))
    }

    /** `parseFunDecl()`: the header, then a block. */
    function FunDeclAt(pos: nat, site: nat): (r: Option<Parse<FunDecl>>)
      requires eofTok.tokenClass.EOF?
      ensures r.Some? ==> r.value.end > pos
    {
      match FunHeaderAt(pos, site)
      case None => None
      case Some(Parse((t, name, ps), p1, s1)) =>
        match BlockAt(p1, s1)
        case None => None
        case Some(Parse(b, p2, s2)) => Some(Parse(FunDecl(t, name, ps, b), p2, s2))
    }

    /** `parseFunDeclRep()`: function declarations while a type starts here. */
    function FunDeclsAt(pos: nat, site: nat): (r: Option<Parse<seq<FunDecl>>>)
      requires eofTok.tokenClass.EOF?
      ensures r.Some? ==> r.value.end >= pos
      decreases Remaining(pos)
    {
      if !IsTypeStart(Stream(pos).tokenClass) then Some(Parse([], pos, site))
      else match FunDeclAt(pos, site)
        case None => None
        case Some(Parse(f, p1, s1)) =>
          match FunDeclsAt(p1, s1)
          case None => None
          case Some(Parse(rest, p2, s2)) => Some(Parse([f] + rest, p2, s2))
    }

    /** `parseStructDecl()`: `struct` and a name, then the body. The declaration keeps
        the `StructType` object. */
    function StructDeclAt(pos: nat, site: nat): (r: Option<Parse<StructTypeDecl>>)
      requires eofTok.tokenClass.EOF?
      ensures r.Some? ==> r.value.end > pos
    {
      if !Stream(pos).tokenClass.STRUCT? || !Stream(pos + 1).tokenClass.IDENTIFIER? then None
      else match StructBodyAt(pos + 2, site + 1)
        case None => None
        case Some(Parse(vs, p1, s1)) => Some(Parse(StructTypeDecl(Parsed(site), Stream(pos + 1).data, vs), p1, s1))
    }

    /** The body of a struct declaration: `{`, one member declaration and any further
        ones, `}`, `;`. */
    function StructBodyAt(pos: nat, site: nat): (r: Option<Parse<seq<VarDecl>>>)
      requires eofTok.tokenClass.EOF?
      ensures r.Some? ==> r.value.end > pos && |r.value.val| >= 1
    {
      if !Stream(pos).tokenClass.LBRA? then None
      else match VarDeclAt(pos + 1, site)
        case None => None
        case Some(Parse(v, p1, s1)) =>
          match VarDeclsAt(p1, s1)
          case None => None
          case Some(Parse(vs, p2, s2)) =>
            if !Stream(p2).tokenClass.RBRA? || !Stream(p2 + 1).tokenClass.SC? then None
            else Some(Parse([v] + vs, p2 + 2, s2))
    }

    /** `parseStructDeclRep()`: struct declarations while the token is `struct`. */
    function StructDeclsAt(pos: nat, site: nat): (r: Option<Parse<seq<StructTypeDecl>>>)
      requires eofTok.tokenClass.EOF?
      ensures r.Some? ==> r.value.end >= pos
      decreases Remaining(pos)
    {
      if !Stream(pos).tokenClass.STRUCT? then Some(Parse([], pos, site))
      else match StructDeclAt(pos, site)
        case None => None
        case Some(Parse(d, p1, s1)) =>
          match StructDeclsAt(p1, s1)
          case None => None
          case Some(Parse(rest, p2, s2)) => Some(Parse([d] + rest, p2, s2))
    }

    /** `parseIncludes()`: `#include` and a string literal, as often as they come; the
        index after the last. */
    function IncludesAt(pos: nat): (r: Option<nat>)
      requires eofTok.tokenClass.EOF?
      ensures r.Some? ==> r.value >= pos
      decreases Remaining(pos)
    {
      if !Stream(pos).tokenClass.INCLUDE? then Some(pos)
      else if !Stream(pos + 1).tokenClass.STRING_LITERAL? then None
      else IncludesAt(pos + 2)
    }

    /** The body of `parseProgram()` before `expect(EOF)`: includes, then struct, global
        and function declarations in that order. */
    function DeclarationsAt(pos: nat, site: nat): (r: Option<Parse<Program>>)
      requires eofTok.tokenClass.EOF?
      ensures r.Some? ==> r.value.end >= pos
    {
      match IncludesAt(pos)
      case None => None
      case Some(p1) =>
        match StructDeclsAt(p1, site)
        case None => None
        case Some(Parse(structs, p2, s2)) =>
          match VarDeclsAt(p2, s2)
          case None => None
          case Some(Parse(vars, p3, s3)) =>
            match FunDeclsAt(p3, s3)
            case None => None
            case Some(Parse(funs, p4, s4)) => Some(Parse(Program(structs, vars, funs), p4, s4))
    }

    /** `parseProgram()`: the declarations, then EOF. */
    function ProgramAt(pos: nat, site: nat): (r: Option<Parse<Program>>)
      requires eofTok.tokenClass.EOF?
      ensures r.Some? ==> r.value.end > pos && Stream(r.value.end - 1).tokenClass.EOF?
    {
      match DeclarationsAt(pos, site)
      case None => None
      case Some(Parse(p, p1, s1)) =>
        if !Stream(p1).tokenClass.EOF? then None else Some(Parse(p, p1 + 1, s1))
    }

    // ---------------------------------------------------------- grammar properties

    /** Whether the expression parsed from `pos` on binds at level `k` or tighter at
        its top: it is no binary operation, or one of level `k` or more, or the parse
        began with `(` or a unary `-`, the only ways a looser operator gets inside. */
    ghost predicate TopBinds(k: nat, pos: nat, e: Expr) {
      !e.BinOp? || OpLevel(e.op) >= k || Stream(pos).tokenClass.LPAR? || Stream(pos).tokenClass.MINUS?
    }

    /** Maximal munch: a parse of level `k` stops only at a token that is no operator of
        level `k` or tighter, so `a + b * c` is never cut short after `b`. */
    lemma {:induction false} ExprStops(k: nat, pos: nat, site: nat)
      requires eofTok.tokenClass.EOF? && k <= 6
      ensures ExprAt(k, pos, site).Some? ==> TokenLevel(Stream(ExprAt(k, pos, site).value.end).tokenClass) < k
      decreases Remaining(pos), 2 * (6 - k) + 14
    {
      if k < 6 {
        ExprStops(k + 1, pos, site);
        match ExprAt(k + 1, pos, site)
        case None =>
        case Some(Parse(left, p1, s1)) => RepStops(k, left, p1, s1);
      }
    }

    lemma {:induction false} RepStops(k: nat, left: Expr, pos: nat, site: nat)
      requires eofTok.tokenClass.EOF? && k < 6
      requires TokenLevel(Stream(pos).tokenClass) <= k
      ensures RepAt(k, left, pos, site).Some? ==> TokenLevel(Stream(RepAt(k, left, pos, site).value.end).tokenClass) < k
      decreases Remaining(pos), 2 * (6 - k) + 13
    {
      var c := Stream(pos).tokenClass;
      if TokenLevel(c) == k {
        ExprStops(k + 1, pos + 1, site);
        match ExprAt(k + 1, pos + 1, site)
        case None =>
        case Some(Parse(right, p1, s1)) => RepStops(k, BinOp(left, BinaryOp(c), right, None), p1, s1);
      }
    }

    /** Left associativity: the `*Rep` loop of level `k` stacks operators of that level,
        and nothing else, on the left spine of what came before. */
    lemma {:induction false} RepSpine(k: nat, left: Expr, pos: nat, site: nat)
      requires eofTok.tokenClass.EOF? && k < 6
      ensures RepAt(k, left, pos, site).Some? ==> LeftSpine(RepAt(k, left, pos, site).value.val, left, k)
      decreases Remaining(pos)
    {
      var c := Stream(pos).tokenClass;
      if TokenLevel(c) == k {
        match ExprAt(k + 1, pos + 1, site)
        case None =>
        case Some(Parse(right, p1, s1)) =>
          var mid := BinOp(left, BinaryOp(c), right, None);
          RepSpine(k, mid, p1, s1);
          if RepAt(k, left, pos, site).Some? {
            LeftSpineTrans(RepAt(k, left, pos, site).value.val, mid, left, k);
          }
      }
    }

    /** Every operator a `*Rep` loop of level `k` stacked on `left`, from position `pos`
        on, has a right operand that starts just after an operator token of level `k` and
        binds tighter than `k`, unless it began with `(` or `-`. */
    ghost predicate RightsBind(e: Expr, left: Expr, k: nat, pos: nat)
      decreases e
    {
      e == left
      || (e.BinOp?
          && (exists q: nat :: pos <= q && TokenLevel(Stream(q).tokenClass) == k && TopBinds(k + 1, q + 1, e.right))
          && RightsBind(e.left, left, k, pos))
    }

    lemma {:induction false} RightsBindTrans(e: Expr, mid: Expr, left: Expr, k: nat, p1: nat, pos: nat)
      requires pos <= p1 && RightsBind(e, mid, k, p1) && RightsBind(mid, left, k, pos)
      ensures RightsBind(e, left, k, pos)
      decreases e
    {
      if e != mid && e != left {
        RightsBindTrans(e.left, mid, left, k, p1, pos);
      }
    }

    /** The right operand of each operator the `*Rep` loop of level `k` builds is a parse
        of level `k + 1`: with `RepSpine`, the whole of precedence climbing. */
    lemma {:induction false} RepRights(k: nat, left: Expr, pos: nat, site: nat)
      requires eofTok.tokenClass.EOF? && k < 6
      ensures RepAt(k, left, pos, site).Some? ==> RightsBind(RepAt(k, left, pos, site).value.val, left, k, pos)
      decreases Remaining(pos)
    {
      var c := Stream(pos).tokenClass;
      if TokenLevel(c) == k {
        ExprTop(k + 1, pos + 1, site);
        match ExprAt(k + 1, pos + 1, site)
        case None =>
        case Some(Parse(right, p1, s1)) =>
          var mid := BinOp(left, BinaryOp(c), right, None);
          RepRights(k, mid, p1, s1);
          assert TokenLevel(Stream(pos).tokenClass) == k && TopBinds(k + 1, pos + 1, right);
          assert RightsBind(mid, left, k, pos);
          if RepAt(k, left, pos, site).Some? {
            RightsBindTrans(RepAt(k, left, pos, site).value.val, mid, left, k, p1, pos);
          }
      }
    }

    /** Precedence: the operator at the top of a parse of level `k` binds at level `k`
        or tighter unless the parse began with `(` or `-`. */
    lemma {:induction false} ExprTop(k: nat, pos: nat, site: nat)
      requires eofTok.tokenClass.EOF? && k <= 6
      ensures ExprAt(k, pos, site).Some? ==> TopBinds(k, pos, ExprAt(k, pos, site).value.val)
      decreases 6 - k
    {
      if k == 6 {
        OperandTop(pos, site);
      } else {
        ExprTop(k + 1, pos, site);
        match ExprAt(k + 1, pos, site)
        case None =>
        case Some(Parse(left, p1, s1)) => RepSpine(k, left, p1, s1);
      }
    }

    /** An operand is a binary operation only when it is a bracketed expression. */
    lemma OperandTop(pos: nat, site: nat)
      requires eofTok.tokenClass.EOF?
      ensures OperandAt(pos, site).Some? && OperandAt(pos, site).value.val.BinOp? ==> Stream(pos).tokenClass.LPAR?
    {
      match PrimaryAt(pos, site)
      case None =>
      case Some(Parse(e, p1, s1)) =>
        assert OperandAt(pos, site) == AccessAt(e, p1, s1);
        var c := Stream(pos).tokenClass;
        if c.IDENTIFIER? {
          assert PrimaryAt(pos, site) == IdentOrCallAt(pos, site);
        } else if c.ASTERIX? {
          assert PrimaryAt(pos, site) == ValueAtAt(pos, site);
        } else if c.SIZEOF? {
          assert PrimaryAt(pos, site) == SizeOfAt(pos, site);
        }
    }

    /** A parse that stops at an operator looser than `k` is also the parse of level
        `k`: the loops of the levels in between find nothing to do. */
    lemma {:induction false} Climb(k: nat, j: nat, pos: nat, site: nat)
      requires eofTok.tokenClass.EOF? && k <= j <= 6
      requires ExprAt(j, pos, site).Some?
      requires TokenLevel(Stream(ExprAt(j, pos, site).value.end).tokenClass) < k
      ensures ExprAt(k, pos, site) == ExprAt(j, pos, site)
      decreases j - k
    {
      if k < j {
        Climb(k + 1, j, pos, site);
      }
    }

    /** A name that no `(`, `[` or `.` follows is a variable, at the tightest level. */
    lemma NameAt(pos: nat, site: nat)
      requires eofTok.tokenClass.EOF? && Stream(pos).tokenClass.IDENTIFIER?
      requires Stream(pos + 1).tokenClass !in {LPAR, LSBR, DOT}
      ensures ExprAt(6, pos, site) == Some(Parse(VarExpr(Stream(pos).data, None, None), pos + 1, site))
    {
      var x := Some(Parse(VarExpr(Stream(pos).data, None, None), pos + 1, site));
      assert IdentOrCallAt(pos, site) == x;
      assert PrimaryAt(pos, site) == x;
      assert OperandAt(pos, site) == x;
      assert UnaryAt(pos, site) == x;
    }

    /** `a + b * c` is `a + (b * c)`: multiplication binds tighter. The stream holds
        three names with `+` and `*` between them, then a token that ends the
        expression. */
    lemma SumOfProduct(pos: nat, site: nat)
      requires eofTok.tokenClass.EOF?
      requires Stream(pos).tokenClass.IDENTIFIER? && Stream(pos + 1).tokenClass.PLUS?
      requires Stream(pos + 2).tokenClass.IDENTIFIER? && Stream(pos + 3).tokenClass.ASTERIX?
      requires Stream(pos + 4).tokenClass.IDENTIFIER?
      requires TokenLevel(Stream(pos + 5).tokenClass) < 0 && Stream(pos + 5).tokenClass !in {LPAR, LSBR, DOT}
      ensures var a, b, c := VarExpr(Stream(pos).data, None, None), VarExpr(Stream(pos + 2).data, None, None),
                             VarExpr(Stream(pos + 4).data, None, None);
              ExprAt(0, pos, site) == Some(Parse(BinOp(a, ADD, BinOp(b, MUL, c, None), None), pos + 5, site))
    {
      var a, b, c := VarExpr(Stream(pos).data, None, None), VarExpr(Stream(pos + 2).data, None, None),
                     VarExpr(Stream(pos + 4).data, None, None);
      NameAt(pos, site);
      NameAt(pos + 2, site);
      NameAt(pos + 4, site);
      var bc := BinOp(b, MUL, c, None);
      assert RepAt(5, bc, pos + 5, site) == Some(Parse(bc, pos + 5, site));
      assert RepAt(5, b, pos + 3, site) == Some(Parse(bc, pos + 5, site));
      assert ExprAt(5, pos + 2, site) == Some(Parse(bc, pos + 5, site));
      Climb(5, 6, pos, site);
      var abc := BinOp(a, ADD, bc, None);
      assert RepAt(4, abc, pos + 5, site) == Some(Parse(abc, pos + 5, site));
      assert RepAt(4, a, pos + 1, site) == Some(Parse(abc, pos + 5, site));
      assert ExprAt(4, pos, site) == Some(Parse(abc, pos + 5, site));
      Climb(0, 4, pos, site);
    }

    /** `a - b - c` is `(a - b) - c`: operators of one level associate to the left. */
    lemma DifferenceOfDifference(pos: nat, site: nat)
      requires eofTok.tokenClass.EOF?
      requires Stream(pos).tokenClass.IDENTIFIER? && Stream(pos + 1).tokenClass.MINUS?
      requires Stream(pos + 2).tokenClass.IDENTIFIER? && Stream(pos + 3).tokenClass.MINUS?
      requires Stream(pos + 4).tokenClass.IDENTIFIER?
      requires TokenLevel(Stream(pos + 5).tokenClass) < 0 && Stream(pos + 5).tokenClass !in {LPAR, LSBR, DOT}
      ensures var a, b, c := VarExpr(Stream(pos).data, None, None), VarExpr(Stream(pos + 2).data, None, None),
                             VarExpr(Stream(pos + 4).data, None, None);
              ExprAt(0, pos, site) == Some(Parse(BinOp(BinOp(a, SUB, b, None), SUB, c, None), pos + 5, site))
    {
      var a, b, c := VarExpr(Stream(pos).data, None, None), VarExpr(Stream(pos + 2).data, None, None),
                     VarExpr(Stream(pos + 4).data, None, None);
      NameAt(pos, site);
      NameAt(pos + 2, site);
      NameAt(pos + 4, site);
      Climb(5, 6, pos, site);
      Climb(5, 6, pos + 2, site);
      Climb(5, 6, pos + 4, site);
      var ab := BinOp(a, SUB, b, None);
      var abc := BinOp(ab, SUB, c, None);
      assert RepAt(4, abc, pos + 5, site) == Some(Parse(abc, pos + 5, site));
      assert RepAt(4, ab, pos + 3, site) == Some(Parse(abc, pos + 5, site));
      assert RepAt(4, a, pos + 1, site) == Some(Parse(abc, pos + 5, site));
      assert ExprAt(4, pos, site) == Some(Parse(abc, pos + 5, site));
      Climb(0, 4, pos, site);
    }

    /** `int a[n];` declares `a` with a new array type of `n` ints over the `int`; the
        array type takes the first allocation, the declaration the second. */
    lemma IntArrayDecl(pos: nat, site: nat)
      requires eofTok.tokenClass.EOF?
      requires Stream(pos).tokenClass.INT? && Stream(pos + 1).tokenClass.IDENTIFIER?
      requires Stream(pos + 2).tokenClass.LSBR? && Stream(pos + 3).tokenClass.INT_LITERAL?
      requires ParseInt(Stream(pos + 3).data).Some?
      requires Stream(pos + 4).tokenClass.RSBR? && Stream(pos + 5).tokenClass.SC?
      ensures VarDeclAt(pos, site)
           == Some(Parse(VarDecl(Parsed(site + 1), ArrayType(Parsed(site), IntType, ParseInt(Stream(pos + 3).data).value),
                                 Stream(pos + 1).data), pos + 6, site + 2))
    {
      assert TypeAt(pos, site) == Some(Parse(IntType, pos + 1, site));
      assert ArrayDeclAt(pos + 2) == Some((ParseInt(Stream(pos + 3).data).value, pos + 5));
    }

    /** An `if` parsed without an else-branch stops at a token that is not `else`:
        `parseMaybeElse()` would have taken one. */
    lemma IfWithoutElseStops(pos: nat, site: nat)
      requires eofTok.tokenClass.EOF? && IfAt(pos, site).Some?
      requires IfAt(pos, site).value.val.elseCode.None?
      ensures !Stream(IfAt(pos, site).value.end).tokenClass.ELSE?
    {
    }

    /** The dangling else: in `if (a) if (b) s else t` the `else` belongs to the inner
        `if`. An outer `if` whose then-branch is an `if` without an else-branch has no
        else-branch of its own. */
    lemma DanglingElse(pos: nat, site: nat)
      requires eofTok.tokenClass.EOF? && IfAt(pos, site).Some?
      requires IfAt(pos, site).value.val.code.If? && IfAt(pos, site).value.val.code.elseCode.None?
      ensures IfAt(pos, site).value.val.elseCode.None?
    {
      var Parse(_, p1, s1) := CondAt(pos + 1, site).value;
      OnlyIfParsesIf(p1, s1);
      IfWithoutElseStops(p1, s1);
    }

    /** A statement parses as an `if` only when it starts with `if`. */
    lemma OnlyIfParsesIf(pos: nat, site: nat)
      requires eofTok.tokenClass.EOF? && StmtAt(pos, site).Some? && StmtAt(pos, site).value.val.If?
      ensures Stream(pos).tokenClass.IF? && StmtAt(pos, site) == IfAt(pos, site)
    {
    }

    /** The state of a parser over one token stream: the current token is the one at
        `ci`, and the look-ahead queue holds the tokens that follow it, in order. */
    ghost predicate Valid()
      reads this`ci, this`token, this`buffer, this`lastErrorToken, this`error
    {
      eofTok.tokenClass.EOF?
      && token == Stream(ci)
      && buffer == Window(ci + 1, |buffer|)
      && -1 <= lastErrorToken <= ci
      && (error == 0 ==> lastErrorToken == -1)
    }

    /** The termination measure: the tokens left before EOF, plus one while the parse
        goes on; a crash drops it to zero. */
    function M(): nat
      reads this`crashed, this`ci
    {
      if crashed then 0 else if ci < |toks| then |toks| - ci + 1 else 1
    }

    /** What every grammar method keeps: the measure never grows, the error count never
        falls and a crash is never undone. */
    ghost predicate Kept(m0: nat, e0: nat, cr0: bool)
      reads this`crashed, this`ci, this`error
    {
      M() <= m0 && error >= e0 && (cr0 ==> crashed)
    }

    /** No error has been reported and nothing has crashed since the parse began: what
        the compiler driver checks, through `getErrorCount()`, before it goes on. */
    ghost predicate Clean()
      reads this`crashed, this`error
    {
      !crashed && error == 0
    }

    /** `new Parser(tokeniser)` followed by the first `nextToken()` of `parse()`. The
        tokeniser is given by the tokens it hands out, `Lex(input, 0)` for its input:
        any number of tokens other than EOF, then EOF. */
    constructor (tokens: seq<Token>)
      requires |tokens| >= 1 && tokens[|tokens| - 1].tokenClass.EOF?
      requires forall k :: 0 <= k < |tokens| - 1 ==> !tokens[k].tokenClass.EOF?
      ensures Valid() && toks + [eofTok] == tokens
      ensures forall t <- toks :: !t.tokenClass.EOF?
      ensures ci == 0 && buffer == [] && error == 0 && lastErrorToken == -1
      ensures nextSite == 0 && !crashed
    {
      var (before, eof) := SplitAtEof(tokens);
      toks := before;
      eofTok := eof;
      ci := 0;
      token := if before == [] then eof else before[0];
      buffer := [];
      error := 0;
      lastErrorToken := -1;
      nextSite := 0;
      crashed := false;
    }

    /** Allocates a new object: the next allocation site of the parser. */
    method FreshSite() returns (s: Site)
      requires Valid()
      modifies this
      ensures Valid() && Kept(old(M()), old(error), old(crashed)) && M() == old(M())
      ensures s == Parsed(old(nextSite)) && nextSite == old(nextSite) + 1
      ensures ci == old(ci) && token == old(token) && error == old(error) && crashed == old(crashed)
    {
      s := Parsed(nextSite);
      nextSite := nextSite + 1;
    }

    /** `nextToken()`: the head of the look-ahead queue if there is one, else the next
        token from the tokeniser. */
    method NextToken()
      requires Valid()
      modifies this
      ensures Valid() && ci == old(ci) + 1 && M() <= old(M())
      ensures old(buffer) != [] ==> token == old(buffer[0]) && buffer == old(buffer[1..])
      ensures old(buffer) == [] ==> token == Stream(ci) && buffer == []
      ensures old(!crashed && !token.tokenClass.EOF?) ==> M() < old(M())
      ensures error == old(error) && lastErrorToken == old(lastErrorToken)
      ensures nextSite == old(nextSite) && crashed == old(crashed)
    {
      if buffer != [] {
        WindowAt(ci + 1, |buffer|, 0);
        token := buffer[0];
        buffer := buffer[1..];
      } else {
        token := Stream(ci + 1);
      }
      ci := ci + 1;
    }

    /** `lookAhead(i)`: reads tokens into the queue until it holds `i`, and returns the
        `i`-th without consuming anything. */
    method LookAhead(i: nat) returns (t: Token)
      requires Valid() && i >= 1
      modifies this
      ensures Valid() && t == Stream(ci + i)
      ensures |buffer| == if old(|buffer|) < i then i else old(|buffer|)
      ensures old(buffer) <= buffer
      ensures ci == old(ci) && token == old(token) && error == old(error)
      ensures lastErrorToken == old(lastErrorToken) && nextSite == old(nextSite)
      ensures crashed == old(crashed)
    {
      var queue := Fill(buffer, ci + 1, i);
      WindowAt(ci + 1, |queue|, i - 1);
      t := queue[i - 1];
      buffer := queue;
    }

    /** The loop of `lookAhead(i)`: extends a queue of the tokens from index `from` on
        until it holds `i` of them. */
    method Fill(queue: seq<Token>, from: nat, i: nat) returns (q: seq<Token>)
      requires queue == Window(from, |queue|)
      ensures q == Window(from, |q|) && queue <= q
      ensures |q| == if |queue| < i then i else |queue|
    {
      q := queue;
      while |q| < i
        invariant q == Window(from, |q|) && queue <= q
        invariant |q| <= if |queue| < i then i else |queue|
        decreases i - |q|
      {
        WindowGrows(from, |q|);
        q := q + [Stream(from + |q|)];
      }
    }

    /** `accept(c)`: whether the current token is of class `c`. Never consumes. */
    function Accepts(c: TokenClass): bool
      reads this`token
    {
      token.tokenClass == c
    }

    /** `accept(INT, CHAR, VOID, STRUCT)`: whether the current token starts a type. */
    function AcceptsType(): bool
      reads this`token
    {
      IsTypeStart(token.tokenClass)
    }

    /** The bookkeeping of one `error(...)` at the current token, from the count `e0`
        and the last error token `l0` before it. */
    ghost predicate Reported(e0: nat, l0: int)
      reads this`ci, this`error, this`lastErrorToken
    {
      if l0 == ci then error == e0 && lastErrorToken == l0 else error == e0 + 1 && lastErrorToken == ci
    }

    /** `error(...)`: counts an error and remembers the token, unless an error was
        already reported at this very token. */
    method Error()
      requires Valid()
      modifies this
      ensures Valid() && Reported(old(error), old(lastErrorToken)) && error > 0
      ensures ci == old(ci) && token == old(token) && buffer == old(buffer)
      ensures nextSite == old(nextSite) && crashed == old(crashed)
    {
      if lastErrorToken != ci {
        error := error + 1;
        lastErrorToken := ci;
      }
    }

    /** `expect(c)`: consumes and returns the current token when its class is `c`;
        otherwise reports an error and consumes nothing. */
    method Expect(c: TokenClass) returns (r: Option<Token>)
      requires Valid()
      modifies this
      ensures Valid() && Kept(old(M()), old(error), old(crashed))
      ensures nextSite == old(nextSite) && crashed == old(crashed)
      ensures old(token.tokenClass) == c ==>
                r == Some(old(token)) && ci == old(ci) + 1 && error == old(error)
                && lastErrorToken == old(lastErrorToken)
                && (old(!crashed && !token.tokenClass.EOF?) ==> M() < old(M()))
      ensures old(token.tokenClass) != c ==>
                r == None && ci == old(ci) && token == old(token)
                && Reported(old(error), old(lastErrorToken)) && error > 0
    {
      if token.tokenClass == c {
        r := Some(token);
        NextToken();
      } else {
        Error();
        r := None;
      }
    }

    // ---------------------------------------------------------------- declarations

    /** `parseProgram()`: includes, structs, globals, functions, then EOF. With no error
        and no crash, the tree is the program the grammar gives for the whole stream, and
        no expression in it is null. */
    method ParseProgram() returns (p: Program)
      requires Valid()
      modifies this
      ensures Valid() && Kept(old(M()), old(error), old(crashed))
      ensures Clean() ==> ci >= 1 && Stream(ci - 1).tokenClass.EOF? && WellFormedProgram(p)
      ensures Clean() ==> ProgramAt(old(ci), old(nextSite)) == Some(Parse(p, ci, nextSite))
      ensures old(Clean()) && ProgramAt(old(ci), old(nextSite)).Some? ==> Clean()
      decreases M(), 28
    {
      if crashed {
        p := Program([], [], []);
        return;
      }
      ghost var p0, s0 := ci, nextSite;
      var structs, vars, funs := ParseDeclarations();
      p := Program(structs, vars, funs);
      ghost var p1, s1, ok1 := ci, nextSite, Clean();
      assert ok1 ==> WellFormedProgram(p) && DeclarationsAt(p0, s0) == Some(Parse(p, p1, s1));
      ghost var before := token;
      var _ := Expect(EOF);
      if Clean() {
        assert ok1 && before.tokenClass.EOF? && ci == p1 + 1 && nextSite == s1;
      }
    }

    /** The body of `parseProgram()` up to the final `expect(EOF)`. */
    method ParseDeclarations() returns (structs: seq<StructTypeDecl>, vars: seq<VarDecl>, funs: seq<FunDecl>)
      requires Valid()
      modifies this
      ensures Valid() && Kept(old(M()), old(error), old(crashed))
      ensures Clean() ==> forall f <- funs :: WellFormedBlock(f.block)
      ensures Clean() ==> DeclarationsAt(old(ci), old(nextSite)) == Some(Parse(Program(structs, vars, funs), ci, nextSite))
      ensures old(Clean()) && DeclarationsAt(old(ci), old(nextSite)).Some? ==> Clean()
      decreases M(), 27
    {
      ghost var p0, s0 := ci, nextSite;
      ParseIncludes();
      ghost var p1, ok1 := ci, Clean();
      assert ok1 ==> IncludesAt(p0) == Some(p1) && nextSite == s0;
      structs := ParseStructDeclRep();
      ghost var p2, s2, ok2 := ci, nextSite, Clean();
      assert ok2 ==> StructDeclsAt(p1, s0) == Some(Parse(structs, p2, s2));
      vars := ParseVarDeclRep();
      ghost var p3, s3, ok3 := ci, nextSite, Clean();
      assert ok3 ==> VarDeclsAt(p2, s2) == Some(Parse(vars, p3, s3));
      funs := ParseFunDeclRep();
      if Clean() {
        assert ok1 && ok2 && ok3;
        DeclarationsStep(p0, s0, p1, structs, p2, s2, vars, p3, s3, funs, ci, nextSite);
      }
    }

    lemma DeclarationsStep(pos: nat, site: nat, p1: nat, structs: seq<StructTypeDecl>, p2: nat, s2: nat,
                           vars: seq<VarDecl>, p3: nat, s3: nat, funs: seq<FunDecl>, p4: nat, s4: nat)
      requires eofTok.tokenClass.EOF? && IncludesAt(pos) == Some(p1)
      requires StructDeclsAt(p1, site) == Some(Parse(structs, p2, s2))
      requires VarDeclsAt(p2, s2) == Some(Parse(vars, p3, s3))
      requires FunDeclsAt(p3, s3) == Some(Parse(funs, p4, s4))
      ensures DeclarationsAt(pos, site) == Some(Parse(Program(structs, vars, funs), p4, s4))
    {
    }

    /** `parseIncludes()`: each `#include` must be followed by a string literal. */
    method ParseIncludes()
      requires Valid()
      modifies this
      ensures Valid() && Kept(old(M()), old(error), old(crashed)) && nextSite == old(nextSite)
      ensures !crashed ==> !token.tokenClass.INCLUDE?
      ensures Clean() ==> IncludesAt(old(ci)) == Some(ci)
      ensures old(Clean()) && IncludesAt(old(ci)).Some? ==> Clean()
      decreases M(), 0
    {
      if !crashed {
        if Accepts(INCLUDE) {
          NextToken();
          ghost var lit := token;
          var _ := Expect(STRING_LITERAL);
          ghost var p1, e1 := ci, error;
          ParseIncludes();
          assert Clean() ==> e1 == 0 && lit.tokenClass.STRING_LITERAL? && IncludesAt(p1) == Some(ci);
        }
      }
    }

    /** `parseStructDeclRep()`: struct declarations for as long as the token is `struct`. */
    method ParseStructDeclRep() returns (ds: seq<StructTypeDecl>)
      requires Valid()
      modifies this
      ensures Valid() && Kept(old(M()), old(error), old(crashed))
      ensures !crashed ==> !token.tokenClass.STRUCT?
      ensures Clean() ==> StructDeclsAt(old(ci), old(nextSite)) == Some(Parse(ds, ci, nextSite))
      ensures old(Clean()) && StructDeclsAt(old(ci), old(nextSite)).Some? ==> Clean()
      decreases M(), 7
    {
      ds := [];
      if !crashed {
        if Accepts(STRUCT) {
          ghost var p0, s0 := ci, nextSite;
          var d := ParseStructDecl();
          ghost var p1, s1, ok1 := ci, nextSite, Clean();
          assert ok1 ==> StructDeclAt(p0, s0) == Some(Parse(d, p1, s1));
          var rest := ParseStructDeclRep();
          ds := [d] + rest;
          if Clean() {
            assert ok1;
            StructDeclsStep(p0, s0, d, p1, s1, rest, ci, nextSite);
          }
        }
      }
    }

    lemma StructDeclsStep(pos: nat, site: nat, d: StructTypeDecl, p1: nat, s1: nat,
                          rest: seq<StructTypeDecl>, p2: nat, s2: nat)
      requires eofTok.tokenClass.EOF? && Stream(pos).tokenClass.STRUCT?
      requires StructDeclAt(pos, site) == Some(Parse(d, p1, s1))
      requires StructDeclsAt(p1, s1) == Some(Parse(rest, p2, s2))
      ensures StructDeclsAt(pos, site) == Some(Parse([d] + rest, p2, s2))
    {
    }

    /** `parseStructDecl()`, called when the token is `struct`: the struct type, then
        `{`, at least one member declaration, `}` and `;`. */
    method ParseStructDecl() returns (d: StructTypeDecl)
      requires Valid() && token.tokenClass.STRUCT?
      modifies this
      ensures Valid() && Kept(old(M()), old(error), old(crashed))
      ensures old(!crashed) ==> M() < old(M())
      ensures |d.variables| >= 1 || crashed
      ensures Clean() ==> StructDeclAt(old(ci), old(nextSite)) == Some(Parse(d, ci, nextSite))
      ensures old(Clean()) && StructDeclAt(old(ci), old(nextSite)).Some? ==> Clean()
      decreases M(), 6
    {
      if crashed {
        d := StructTypeDecl(Parsed(0), "", []);
      } else {
        ghost var p0, s0 := ci, nextSite;
        var st := ParseStructType();
        ghost var ok1 := Clean();
        assert ok1 ==> Stream(p0 + 1).tokenClass.IDENTIFIER? && st == StructType(Parsed(s0), Stream(p0 + 1).data)
                       && ci == p0 + 2 && nextSite == s0 + 1;
        var vs := ParseStructBody();
        d := StructTypeDecl(st.site, st.structType, vs);
        if Clean() {
          assert ok1;
        }
      }
    }

    /** The body of `parseStructDecl()`: `{`, a member declaration, further members,
        `}` and `;`. */
    method ParseStructBody() returns (vs: seq<VarDecl>)
      requires Valid()
      modifies this
      ensures Valid() && Kept(old(M()), old(error), old(crashed))
      ensures |vs| >= 1
      ensures Clean() ==> StructBodyAt(old(ci), old(nextSite)) == Some(Parse(vs, ci, nextSite))
      ensures old(Clean()) && StructBodyAt(old(ci), old(nextSite)).Some? ==> Clean()
      decreases M(), 5
    {
      ghost var p0, s0, t0 := ci, nextSite, token;
      var _ := Expect(LBRA);
      ghost var ok1 := Clean();
      assert ok1 ==> t0.tokenClass.LBRA? && ci == p0 + 1 && nextSite == s0;
      var v := ParseVarDecl();
      ghost var p1, s1, ok2 := ci, nextSite, Clean();
      assert ok2 ==> VarDeclAt(p0 + 1, s0) == Some(Parse(v, p1, s1));
      var rest := ParseStructMembers();
      vs := [v] + rest;
      if Clean() {
        assert ok1 && ok2;
        StructBodyStep(p0, s0, v, p1, s1, rest, ci, nextSite);
      }
    }

    lemma StructBodyStep(pos: nat, site: nat, v: VarDecl, p1: nat, s1: nat, rest: seq<VarDecl>, p2: nat, s2: nat)
      requires eofTok.tokenClass.EOF? && Stream(pos).tokenClass.LBRA?
      requires VarDeclAt(pos + 1, site) == Some(Parse(v, p1, s1))
      requires p2 >= 2 && VarDeclsAt(p1, s1) == Some(Parse(rest, p2 - 2, s2))
      requires Stream(p2 - 2).tokenClass.RBRA? && Stream(p2 - 1).tokenClass.SC?
      ensures StructBodyAt(pos, site) == Some(Parse([v] + rest, p2, s2))
    {
    }

    /** The end of `parseStructDecl()`: further member declarations, `}` and `;`.
        With no error the members and what follows them are the ones the grammar gives. */
    method ParseStructMembers() returns (vs: seq<VarDecl>)
      requires Valid()
      modifies this
      ensures Valid() && Kept(old(M()), old(error), old(crashed))
      ensures Clean() ==> ci >= 2 && VarDeclsAt(old(ci), old(nextSite)) == Some(Parse(vs, ci - 2, nextSite))
                          && Stream(ci - 2).tokenClass.RBRA? && Stream(ci - 1).tokenClass.SC?
      ensures (old(Clean()) && VarDeclsAt(old(ci), old(nextSite)).Some?
               && Stream(VarDeclsAt(old(ci), old(nextSite)).value.end).tokenClass.RBRA?
               && Stream(VarDeclsAt(old(ci), old(nextSite)).value.end + 1).tokenClass.SC?) ==> Clean()
      decreases M(), 0
    {
      vs := ParseVarDeclRep();
      ghost var p1, e1, t1 := ci, error, token;
      var _ := Expect(RBRA);
      ghost var e2, t2 := error, token;
      var _ := Expect(SC);
      assert Clean() ==> e1 == 0 && e2 == 0 && t1.tokenClass.RBRA? && t2.tokenClass.SC? && ci == p1 + 2;
    }

    /** `parseVarDeclRep()`: variable declarations while the token starts a type and the
        token after next is not `(`, which would make it a function declaration. */
    method ParseVarDeclRep() returns (vs: seq<VarDecl>)
      requires Valid()
      modifies this
      ensures Valid() && Kept(old(M()), old(error), old(crashed))
      ensures !crashed ==> !IsTypeStart(token.tokenClass) || Stream(ci + 2).tokenClass.LPAR?
      ensures Clean() ==> VarDeclsAt(old(ci), old(nextSite)) == Some(Parse(vs, ci, nextSite))
      ensures old(Clean()) && VarDeclsAt(old(ci), old(nextSite)).Some? ==> Clean()
      decreases M(), 6
    {
      vs := [];
      if !crashed {
        if AcceptsType() {
          var look := LookAhead(2);
          if !look.tokenClass.LPAR? {
            vs := ParseMoreVarDecls();
          }
        }
      }
    }

    /** The branch of `parseVarDeclRep()` that declares a variable: the declaration,
        then the rest. */
    method ParseMoreVarDecls() returns (vs: seq<VarDecl>)
      requires Valid() && !crashed && IsTypeStart(token.tokenClass) && !Stream(ci + 2).tokenClass.LPAR?
      modifies this
      ensures Valid() && Kept(old(M()), old(error), false)
      ensures !crashed ==> !IsTypeStart(token.tokenClass) || Stream(ci + 2).tokenClass.LPAR?
      ensures Clean() ==> VarDeclsAt(old(ci), old(nextSite)) == Some(Parse(vs, ci, nextSite))
      ensures old(Clean()) && VarDeclsAt(old(ci), old(nextSite)).Some? ==> Clean()
      decreases M(), 5
    {
      ghost var p0, s0 := ci, nextSite;
      var v := ParseVarDecl();
      ghost var p1, s1, ok1 := ci, nextSite, Clean();
      assert ok1 ==> VarDeclAt(p0, s0) == Some(Parse(v, p1, s1));
      var rest := ParseVarDeclRep();
      vs := [v] + rest;
      if Clean() {
        assert ok1;
        VarDeclsStep(p0, s0, v, p1, s1, rest, ci, nextSite);
      }
    }

    lemma VarDeclsStep(pos: nat, site: nat, v: VarDecl, p1: nat, s1: nat, rest: seq<VarDecl>, p2: nat, s2: nat)
      requires eofTok.tokenClass.EOF?
      requires IsTypeStart(Stream(pos).tokenClass) && !Stream(pos + 2).tokenClass.LPAR?
      requires VarDeclAt(pos, site) == Some(Parse(v, p1, s1))
      requires VarDeclsAt(p1, s1) == Some(Parse(rest, p2, s2))
      ensures VarDeclsAt(pos, site) == Some(Parse([v] + rest, p2, s2))
    {
    }

    /** `parseVarDecl()`: a type and a name, then `;`, or `[n]` and `;` for an array of
        `n` elements. */
    method ParseVarDecl() returns (v: VarDecl)
      requires Valid()
      modifies this
      ensures Valid() && Kept(old(M()), old(error), old(crashed))
      ensures old(!crashed && IsTypeStart(token.tokenClass)) ==> M() < old(M())
      ensures Clean() ==> VarDeclAt(old(ci), old(nextSite)) == Some(Parse(v, ci, nextSite))
      ensures old(Clean()) && VarDeclAt(old(ci), old(nextSite)).Some? ==> Clean()
      decreases M(), 4
    {
      if crashed {
        v := VarDecl(Parsed(0), VoidType, "");
      } else {
        var t := ParseType();
        v := ParseDeclarator(t);
      }
    }

    /** The rest of `parseVarDecl()` once the type is parsed. */
    method ParseDeclarator(t: Type) returns (v: VarDecl)
      requires Valid() && !crashed
      modifies this
      ensures Valid() && Kept(old(M()), old(error), false)
      ensures Clean() ==> DeclaratorAt(t, old(ci), old(nextSite)) == Some(Parse(v, ci, nextSite))
      ensures old(Clean()) && DeclaratorAt(t, old(ci), old(nextSite)).Some? ==> Clean()
      decreases M(), 3
    {
      ghost var p0, s0 := ci, nextSite;
      var name := token.data;
      var _ := Expect(IDENTIFIER);
      assert Clean() ==> Stream(p0).tokenClass.IDENTIFIER? && Stream(p0).data == name
                         && ci == p0 + 1 && nextSite == s0;
      if Accepts(SC) {
        var _ := Expect(SC);
        var site := FreshSite();
        v := VarDecl(site, t, name);
      } else if Accepts(LSBR) {
        v := ParseArraySuffix(t, name);
      } else {
        Error();
        var site := FreshSite();
        v := VarDecl(site, t, name);
      }
    }

    /** The array branch of `parseVarDecl()`, from the `[`. */
    method ParseArraySuffix(t: Type, name: string) returns (v: VarDecl)
      requires Valid() && !crashed
      modifies this
      ensures Valid() && Kept(old(M()), old(error), false)
      ensures Clean() ==> ArraySuffixAt(t, name, old(ci), old(nextSite)) == Some(Parse(v, ci, nextSite))
      ensures old(Clean()) && ArraySuffixAt(t, name, old(ci), old(nextSite)).Some? ==> Clean()
      decreases M(), 2
    {
      var len := ParseArrayDecl();
      var _ := Expect(SC);
      var site := FreshSite();
      var ty := ArrayType(site, t, len);
      site := FreshSite();
      v := VarDecl(site, ty, name);
    }

    /** `parseArrayDecl()`: `[`, an integer literal, `]`; the literal's value, or 0 when
        it is missing. */
    method ParseArrayDecl() returns (n: int32)
      requires Valid()
      modifies this
      ensures Valid() && Kept(old(M()), old(error), old(crashed))
      ensures nextSite == old(nextSite) && (old(crashed) ==> n == 0)
      ensures old(!crashed) ==>
                var lit := Stream(if old(token.tokenClass) == LSBR then old(ci) + 1 else old(ci));
                var value := if lit.tokenClass.INT_LITERAL? then ParseInt(lit.data) else Some(0);
                (crashed <==> value.None?) && (!crashed ==> n == value.value)
      ensures (old(Clean()) && old(token.tokenClass).LSBR? && Stream(old(ci) + 1).tokenClass.INT_LITERAL?
               && ParseInt(Stream(old(ci) + 1).data).Some? && Stream(old(ci) + 2).tokenClass.RSBR?) ==> Clean()
      ensures Clean() ==> ArrayDeclAt(old(ci)) == Some((n, ci))
      decreases M(), 1
    {
      n := 0;
      if !crashed {
        var _ := Expect(LSBR);
        n := ParseArrayLength();
      }
    }

    /** The rest of `parseArrayDecl()` after the `[`: the literal, or a crash when it
        does not fit an `int`, then `]`. */
    method ParseArrayLength() returns (n: int32)
      requires Valid() && !crashed
      modifies this
      ensures Valid() && Kept(old(M()), old(error), false)
      ensures nextSite == old(nextSite)
      ensures var value := if old(token.tokenClass) == INT_LITERAL then ParseInt(old(token.data)) else Some(0);
              (crashed <==> value.None?) && (!crashed ==> n == value.value)
      ensures Clean() ==> old(token.tokenClass) == INT_LITERAL && Stream(old(ci) + 1).tokenClass.RSBR?
                          && ci == old(ci) + 2
      ensures (old(Clean()) && old(token.tokenClass).INT_LITERAL? && ParseInt(old(token.data)).Some?
               && Stream(old(ci) + 1).tokenClass.RSBR?) ==> Clean()
      decreases M(), 0
    {
      n := 0;
      var value := if Accepts(INT_LITERAL) then ParseInt(token.data) else Some(0);
      if value.None? {
        crashed := true;
      } else {
        n := value.value;
        var _ := Expect(INT_LITERAL);
        var _ := Expect(RSBR);
      }
    }

    /** `parseFunDeclRep()`: function declarations while the token starts a type. */
    method ParseFunDeclRep() returns (fs: seq<FunDecl>)
      requires Valid()
      modifies this
      ensures Valid() && Kept(old(M()), old(error), old(crashed))
      ensures !crashed ==> !IsTypeStart(token.tokenClass)
      ensures Clean() ==> forall f <- fs :: WellFormedBlock(f.block)
      ensures Clean() ==> FunDeclsAt(old(ci), old(nextSite)) == Some(Parse(fs, ci, nextSite))
      ensures old(Clean()) && FunDeclsAt(old(ci), old(nextSite)).Some? ==> Clean()
      decreases M(), 26
    {
      fs := [];
      if !crashed {
        if AcceptsType() {
          fs := ParseMoreFunDecls();
        }
      }
    }

    /** The branch of `parseFunDeclRep()` that declares a function: the declaration,
        then the rest. */
    method ParseMoreFunDecls() returns (fs: seq<FunDecl>)
      requires Valid() && !crashed && IsTypeStart(token.tokenClass)
      modifies this
      ensures Valid() && Kept(old(M()), old(error), false)
      ensures !crashed ==> !IsTypeStart(token.tokenClass)
      ensures Clean() ==> forall f <- fs :: WellFormedBlock(f.block)
      ensures Clean() ==> FunDeclsAt(old(ci), old(nextSite)) == Some(Parse(fs, ci, nextSite))
      ensures old(Clean()) && FunDeclsAt(old(ci), old(nextSite)).Some? ==> Clean()
      decreases M(), 25
    {
      ghost var p0, s0 := ci, nextSite;
      var f := ParseFunDecl();
      ghost var p1, s1, ok1 := ci, nextSite, Clean();
      assert ok1 ==> WellFormedBlock(f.block) && FunDeclAt(p0, s0) == Some(Parse(f, p1, s1));
      var rest := ParseFunDeclRep();
      fs := [f] + rest;
      if Clean() {
        assert ok1;
        FunDeclsStep(p0, s0, f, p1, s1, rest, ci, nextSite);
      }
    }

    lemma FunDeclsStep(pos: nat, site: nat, f: FunDecl, p1: nat, s1: nat, rest: seq<FunDecl>, p2: nat, s2: nat)
      requires eofTok.tokenClass.EOF? && IsTypeStart(Stream(pos).tokenClass)
      requires FunDeclAt(pos, site) == Some(Parse(f, p1, s1))
      requires FunDeclsAt(p1, s1) == Some(Parse(rest, p2, s2))
      ensures FunDeclsAt(pos, site) == Some(Parse([f] + rest, p2, s2))
    {
    }

    /** `parseFunDecl()`: type, name, `(`, parameters, `)`, block. */
    method ParseFunDecl() returns (f: FunDecl)
      requires Valid()
      modifies this
      ensures Valid() && Kept(old(M()), old(error), old(crashed))
      ensures old(!crashed && IsTypeStart(token.tokenClass)) ==> M() < old(M())
      ensures Clean() ==> WellFormedBlock(f.block)
      ensures Clean() ==> FunDeclAt(old(ci), old(nextSite)) == Some(Parse(f, ci, nextSite))
      ensures old(Clean()) && FunDeclAt(old(ci), old(nextSite)).Some? ==> Clean()
      decreases M(), 24
    {
      if crashed {
        f := FunDecl(VoidType, "", [], Block([], []));
      } else {
        ghost var p0, s0 := ci, nextSite;
        var t, name, ps := ParseFunHeader();
        ghost var p1, s1, ok1 := ci, nextSite, Clean();
        assert ok1 ==> FunHeaderAt(p0, s0) == Some(Parse((t, name, ps), p1, s1));
        var b := ParseBlock();
        f := FunDecl(t, name, ps, b);
        if Clean() {
          assert ok1;
        }
      }
    }

    /** The part of `parseFunDecl()` before the block: type, name, `(`, parameters, `)`. */
    method ParseFunHeader() returns (t: Type, name: string, ps: seq<VarDecl>)
      requires Valid() && !crashed
      modifies this
      ensures Valid() && Kept(old(M()), old(error), false)
      ensures old(IsTypeStart(token.tokenClass)) ==> M() < old(M())
      ensures Clean() ==> FunHeaderAt(old(ci), old(nextSite)) == Some(Parse((t, name, ps), ci, nextSite))
      ensures old(Clean()) && FunHeaderAt(old(ci), old(nextSite)).Some? ==> Clean()
      decreases M(), 5
    {
      ghost var p0, s0 := ci, nextSite;
      t := ParseType();
      ghost var p1, s1, ok1 := ci, nextSite, Clean();
      assert ok1 ==> TypeAt(p0, s0) == Some(Parse(t, p1, s1));
      name, ps := ParseNameAndParams();
      if Clean() {
        assert ok1;
        FunHeaderStep(p0, s0, t, p1, s1, ps, ci, nextSite);
      }
    }

    /** The function's name and its parameter list. */
    method ParseNameAndParams() returns (name: string, ps: seq<VarDecl>)
      requires Valid()
      modifies this
      ensures Valid() && Kept(old(M()), old(error), old(crashed))
      ensures Clean() ==> Stream(old(ci)).tokenClass.IDENTIFIER? && name == Stream(old(ci)).data
                          && ParamListAt(old(ci) + 1, old(nextSite)) == Some(Parse(ps, ci, nextSite))
      ensures (old(Clean()) && Stream(old(ci)).tokenClass.IDENTIFIER? && ParamListAt(old(ci) + 1, old(nextSite)).Some?)
               ==> Clean()
      decreases M(), 5
    {
      ghost var t0 := token;
      name := token.data;
      var _ := Expect(IDENTIFIER);
      ghost var e1 := error;
      ps := ParseParamList();
      assert Clean() ==> e1 == 0 && t0.tokenClass.IDENTIFIER?;
    }

    /** The parameters of a function declaration, between `(` and `)`. */
    method ParseParamList() returns (ps: seq<VarDecl>)
      requires Valid()
      modifies this
      ensures Valid() && Kept(old(M()), old(error), old(crashed))
      ensures Clean() ==> ParamListAt(old(ci), old(nextSite)) == Some(Parse(ps, ci, nextSite))
      ensures old(Clean()) && ParamListAt(old(ci), old(nextSite)).Some? ==> Clean()
      decreases M(), 5
    {
      ghost var t0 := token;
      var _ := Expect(LPAR);
      ghost var p1, s1, e1 := ci, nextSite, error;
      ps := ParseParams();
      ghost var p2, e2, t2 := ci, error, token;
      var _ := Expect(RPAR);
      if Clean() {
        assert e1 == 0 && e2 == 0 && t0.tokenClass.LPAR? && t2.tokenClass.RPAR?;
        assert ParamsAt(p1, s1) == Some(Parse(ps, p2, nextSite));
      }
    }

    lemma FunHeaderStep(pos: nat, site: nat, t: Type, p1: nat, s1: nat, ps: seq<VarDecl>, p2: nat, s2: nat)
      requires eofTok.tokenClass.EOF? && TypeAt(pos, site) == Some(Parse(t, p1, s1))
      requires Stream(p1).tokenClass.IDENTIFIER? && ParamListAt(p1 + 1, s1) == Some(Parse(ps, p2, s2))
      ensures FunHeaderAt(pos, site) == Some(Parse((t, Stream(p1).data, ps), p2, s2))
    {
    }

    /** The number of pointer levels over a type. */
    static function Depth(t: Type): nat {
      if t.PointerType? then 1 + Depth(t.pointerToType) else 0
    }

    /** The first half of `parseType()`: `int`, `char`, `void` or a struct type. */
    method ParseBaseType() returns (t: Type)
      requires Valid()
      modifies this
      ensures Valid() && Kept(old(M()), old(error), old(crashed))
      ensures crashed == old(crashed) && !t.PointerType? && ci >= old(ci)
      ensures old(!crashed && IsTypeStart(token.tokenClass)) ==> M() < old(M())
      ensures old(token.tokenClass) == TokenClass.INT ==> t == IntType
      ensures old(token.tokenClass) == TokenClass.CHAR ==> t == CharType
      ensures old(token.tokenClass) == TokenClass.VOID ==> t == VoidType
      ensures old(!IsTypeStart(token.tokenClass) || token.tokenClass.STRUCT?) ==>
                t.StructType?
      ensures Clean() ==> BaseTypeAt(old(ci), old(nextSite)) == Some(Parse(t, ci, nextSite))
      ensures old(Clean()) && BaseTypeAt(old(ci), old(nextSite)).Some? ==> Clean()
      decreases M(), 1
    {
      if Accepts(TokenClass.INT) {
        NextToken();
        t := IntType;
      } else if Accepts(TokenClass.CHAR) {
        NextToken();
        t := CharType;
      } else if Accepts(TokenClass.VOID) {
        NextToken();
        t := VoidType;
      } else {
        t := ParseStructType();
      }
    }

    /** `parseType()`: a base type or a struct type, then one `PointerType` for each
        `*` that follows. */
    method ParseType() returns (t: Type)
      requires Valid()
      modifies this
      ensures Valid() && Kept(old(M()), old(error), old(crashed))
      ensures crashed == old(crashed)
      ensures old(!crashed && IsTypeStart(token.tokenClass)) ==> M() < old(M())
      ensures !crashed ==>
                !token.tokenClass.ASTERIX? && Depth(t) <= ci - old(ci)
                && forall k :: ci - Depth(t) <= k < ci ==> Stream(k).tokenClass.ASTERIX?
      ensures !crashed && old(token.tokenClass) == TokenClass.INT ==> BaseOf(t) == IntType
      ensures !crashed && old(token.tokenClass) == TokenClass.CHAR ==> BaseOf(t) == CharType
      ensures !crashed && old(token.tokenClass) == TokenClass.VOID ==> BaseOf(t) == VoidType
      ensures !crashed && old(!IsTypeStart(token.tokenClass) || token.tokenClass.STRUCT?) ==>
                BaseOf(t).StructType?
      ensures Clean() ==> TypeAt(old(ci), old(nextSite)) == Some(Parse(t, ci, nextSite))
      ensures old(Clean()) && TypeAt(old(ci), old(nextSite)).Some? ==> Clean()
      decreases M(), 2
    {
      if crashed {
        t := VoidType;
      } else {
        t := ParseBaseType();
        t := ParsePointers(t);
      }
    }

    /** The loop that ends `parseType()`: one `PointerType` around the type for each `*`,
        every one a new object. */
    method ParsePointers(base: Type) returns (t: Type)
      requires Valid() && !crashed
      modifies this
      ensures Valid() && Kept(old(M()), old(error), false) && !crashed && ci >= old(ci)
      ensures error == old(error)
      ensures !token.tokenClass.ASTERIX?
      ensures BaseOf(t) == BaseOf(base) && Depth(t) == Depth(base) + (ci - old(ci))
      ensures forall k :: old(ci) <= k < ci ==> Stream(k).tokenClass.ASTERIX?
      ensures PointersAt(base, old(ci), old(nextSite)) == Some(Parse(t, ci, nextSite))
      decreases M(), 0
    {
      t := base;
      while Accepts(ASTERIX)
        invariant Valid() && !crashed && Kept(old(M()), old(error), false) && ci >= old(ci) && error == old(error)
        invariant BaseOf(t) == BaseOf(base) && Depth(t) == Depth(base) + (ci - old(ci))
        invariant forall k :: old(ci) <= k < ci ==> Stream(k).tokenClass.ASTERIX?
        invariant PointersAt(base, old(ci), old(nextSite)) == PointersAt(t, ci, nextSite)
        decreases M()
      {
        ghost var star := ci;
        var site := FreshSite();
        t := PointerType(site, t);
        var _ := Expect(ASTERIX);
        assert ci == star + 1;
      }
    }

    /** The type under all pointer levels. */
    static function BaseOf(t: Type): Type {
      if t.PointerType? then BaseOf(t.pointerToType) else t
    }

    /** `parseStructType()`: `struct` and a name. */
    method ParseStructType() returns (t: Type)
      requires Valid()
      modifies this
      ensures Valid() && Kept(old(M()), old(error), old(crashed))
      ensures crashed == old(crashed) && t.StructType? && ci >= old(ci)
      ensures old(!crashed && token.tokenClass.STRUCT?) ==> M() < old(M())
      ensures old(token.tokenClass) == STRUCT && !crashed ==> t.structType == Stream(old(ci) + 1).data
      ensures Clean() ==> Stream(old(ci)).tokenClass.STRUCT? && Stream(old(ci) + 1).tokenClass.IDENTIFIER?
                          && t == StructType(Parsed(old(nextSite)), Stream(old(ci) + 1).data)
                          && ci == old(ci) + 2 && nextSite == old(nextSite) + 1
      ensures (old(Clean()) && Stream(old(ci)).tokenClass.STRUCT? && Stream(old(ci) + 1).tokenClass.IDENTIFIER?)
               ==> Clean()
      decreases M(), 0
    {
      var _ := Expect(STRUCT);
      var site := FreshSite();
      t := StructType(site, token.data);
      var _ := Expect(IDENTIFIER);
    }

    /** `parseParams()`: nothing, or a type and a name followed by further parameters. */
    method ParseParams() returns (ps: seq<VarDecl>)
      requires Valid()
      modifies this
      ensures Valid() && Kept(old(M()), old(error), old(crashed))
      ensures Clean() ==> ParamsAt(old(ci), old(nextSite)) == Some(Parse(ps, ci, nextSite))
      ensures old(Clean()) && ParamsAt(old(ci), old(nextSite)).Some? ==> Clean()
      decreases M(), 4
    {
      ps := [];
      if !crashed {
        if AcceptsType() {
          var v := ParseParam();
          var rest := ParseExtraParam();
          ps := [v] + rest;
        }
      }
    }

    /** A type and a name, the part `parseParams()` and `parseExtraParam()` share. */
    method ParseParam() returns (v: VarDecl)
      requires Valid() && !crashed
      modifies this
      ensures Valid() && Kept(old(M()), old(error), false)
      ensures old(IsTypeStart(token.tokenClass)) ==> M() < old(M())
      ensures Clean() ==> ParamAt(old(ci), old(nextSite)) == Some(Parse(v, ci, nextSite))
      ensures old(Clean()) && ParamAt(old(ci), old(nextSite)).Some? ==> Clean()
      decreases M(), 3
    {
      ghost var p0, s0 := ci, nextSite;
      var t := ParseType();
      ghost var p1, s1 := ci, nextSite;
      var id := token.data;
      var _ := Expect(IDENTIFIER);
      var site := FreshSite();
      v := VarDecl(site, t, id);
      if Clean() {
        ParamStep(p0, s0, t, p1, s1);
      }
    }

    lemma ParamStep(pos: nat, site: nat, t: Type, p1: nat, s1: nat)
      requires eofTok.tokenClass.EOF?
      requires TypeAt(pos, site) == Some(Parse(t, p1, s1)) && Stream(p1).tokenClass.IDENTIFIER?
      ensures ParamAt(pos, site) == Some(Parse(VarDecl(Parsed(s1), t, Stream(p1).data), p1 + 1, s1 + 1))
    {
    }

    /** `parseExtraParam()`: `,` type name, for as long as a comma follows. */
    method ParseExtraParam() returns (ps: seq<VarDecl>)
      requires Valid()
      modifies this
      ensures Valid() && Kept(old(M()), old(error), old(crashed))
      ensures !crashed ==> !token.tokenClass.COMMA?
      ensures Clean() ==> ExtraParamsAt(old(ci), old(nextSite)) == Some(Parse(ps, ci, nextSite))
      ensures old(Clean()) && ExtraParamsAt(old(ci), old(nextSite)).Some? ==> Clean()
      decreases M(), 3
    {
      if !crashed && Accepts(COMMA) {
        ps := ParseMoreParams();
      } else {
        ps := [];
      }
    }

    /** The comma branch of `parseExtraParam()`: a parameter, then the rest. */
    method ParseMoreParams() returns (ps: seq<VarDecl>)
      requires Valid() && !crashed && token.tokenClass.COMMA?
      modifies this
      ensures Valid() && Kept(old(M()), old(error), false)
      ensures !crashed ==> !token.tokenClass.COMMA?
      ensures Clean() ==> ExtraParamsAt(old(ci), old(nextSite)) == Some(Parse(ps, ci, nextSite))
      ensures old(Clean()) && ExtraParamsAt(old(ci), old(nextSite)).Some? ==> Clean()
      decreases M(), 2
    {
      ghost var p0, s0 := ci, nextSite;
      var v := ParseNextParam();
      ghost var p1, s1, e1 := ci, nextSite, error;
      var rest := ParseExtraParam();
      ps := [v] + rest;
      if Clean() {
        assert e1 == 0;
        ExtraParamStep(p0, s0, v, p1, s1, rest, ci, nextSite);
      }
    }

    /** `,` and one parameter. */
    method ParseNextParam() returns (v: VarDecl)
      requires Valid() && !crashed && token.tokenClass.COMMA?
      modifies this
      ensures Valid() && Kept(old(M()), old(error), false) && (!crashed ==> M() < old(M()))
      ensures Clean() ==> Stream(old(ci)).tokenClass.COMMA?
                          && ParamAt(old(ci) + 1, old(nextSite)) == Some(Parse(v, ci, nextSite))
      ensures old(Clean()) && ParamAt(old(ci) + 1, old(nextSite)).Some? ==> Clean()
    {
      var _ := Expect(COMMA);
      ghost var e1 := error;
      v := ParseParam();
      assert Clean() ==> e1 == 0;
    }

    lemma ExtraParamStep(pos: nat, site: nat, v: VarDecl, p1: nat, s1: nat, rest: seq<VarDecl>, p2: nat, s2: nat)
      requires eofTok.tokenClass.EOF? && Stream(pos).tokenClass.COMMA?
      requires ParamAt(pos + 1, site) == Some(Parse(v, p1, s1))
      requires ExtraParamsAt(p1, s1) == Some(Parse(rest, p2, s2))
      ensures ExtraParamsAt(pos, site) == Some(Parse([v] + rest, p2, s2))
    {
    }

    // ------------------------------------------------------------------ statements

    function BlockFuel(): nat
      reads this`crashed, this`ci, this`token
    {
      if !crashed && token.tokenClass.LBRA? then M() - 1 else M()
    }

    /** `parseBlock()`: `{`, declarations, statements, `}`. */
    method ParseBlock() returns (b: Block)
      requires Valid()
      modifies this
      ensures Valid() && Kept(old(M()), old(error), old(crashed))
      ensures old(!crashed && token.tokenClass.LBRA?) ==> M() < old(M())
      ensures Clean() ==> WellFormedBlock(b)
      ensures Clean() ==> BlockAt(old(ci), old(nextSite)) == Some(Parse(b, ci, nextSite))
      ensures old(Clean()) && BlockAt(old(ci), old(nextSite)).Some? ==> Clean()
      decreases BlockFuel(), 24
    {
      if crashed {
        b := Block([], []);
      } else {
        ghost var p0, s0, t0 := ci, nextSite, token;
        var _ := Expect(LBRA);
        ghost var ok1 := Clean();
        assert ok1 ==> t0.tokenClass.LBRA? && ci == p0 + 1 && nextSite == s0;
        var vars := ParseVarDeclRep();
        ghost var p1, s1, ok2 := ci, nextSite, Clean();
        assert ok2 ==> VarDeclsAt(p0 + 1, s0) == Some(Parse(vars, p1, s1));
        var code := ParseStmtRep();
        ghost var p2, t2, ok3 := ci, token, Clean();
        assert ok3 ==> StmtsAt(p1, s1) == Some(Parse(code, p2, nextSite));
        var _ := Expect(RBRA);
        b := Block(vars, code);
        if Clean() {
          assert ok1 && ok2 && ok3 && t2.tokenClass.RBRA?;
          BlockStep(p0, s0, vars, p1, s1, code, p2, nextSite);
        }
      }
    }

    lemma BlockStep(pos: nat, site: nat, vars: seq<VarDecl>, p1: nat, s1: nat, code: seq<Stmt>, p2: nat, s2: nat)
      requires eofTok.tokenClass.EOF? && Stream(pos).tokenClass.LBRA?
      requires VarDeclsAt(pos + 1, site) == Some(Parse(vars, p1, s1))
      requires StmtsAt(p1, s1) == Some(Parse(code, p2, s2)) && Stream(p2).tokenClass.RBRA?
      ensures BlockAt(pos, site) == Some(Parse(Block(vars, code), p2 + 1, s2))
    {
    }

    /** `parseStmtRep()`: statements until `}` or EOF. */
    method ParseStmtRep() returns (ss: seq<Stmt>)
      requires Valid()
      modifies this
      ensures Valid() && Kept(old(M()), old(error), old(crashed))
      ensures !crashed ==> token.tokenClass.RBRA? || token.tokenClass.EOF?
      ensures Clean() ==> forall s <- ss :: WellFormedStmt(s)
      ensures Clean() ==> StmtsAt(old(ci), old(nextSite)) == Some(Parse(ss, ci, nextSite))
      ensures old(Clean()) && StmtsAt(old(ci), old(nextSite)).Some? ==> Clean()
      decreases M(), 23
    {
      ss := [];
      if !crashed && !Accepts(RBRA) && !Accepts(EOF) {
        ss := ParseMoreStmts();
      }
    }

    /** The branch of `parseStmtRep()` that goes on: a statement, then the rest. */
    method ParseMoreStmts() returns (ss: seq<Stmt>)
      requires Valid() && !crashed && !token.tokenClass.RBRA? && !token.tokenClass.EOF?
      modifies this
      ensures Valid() && Kept(old(M()), old(error), false)
      ensures !crashed ==> token.tokenClass.RBRA? || token.tokenClass.EOF?
      ensures Clean() ==> forall s <- ss :: WellFormedStmt(s)
      ensures Clean() ==> StmtsAt(old(ci), old(nextSite)) == Some(Parse(ss, ci, nextSite))
      ensures old(Clean()) && StmtsAt(old(ci), old(nextSite)).Some? ==> Clean()
      decreases M(), 22
    {
      ghost var p0, s0 := ci, nextSite;
      var s := ParseStmt();
      ghost var p1, s1, ok1 := ci, nextSite, Clean();
      assert ok1 ==> WellFormedStmt(s) && StmtAt(p0, s0) == Some(Parse(s, p1, s1));
      var rest := ParseStmtRep();
      ss := [s] + rest;
      if Clean() {
        assert ok1;
        StmtsStep(p0, s0, s, p1, s1, rest, ci, nextSite);
      }
    }

    lemma StmtsStep(pos: nat, site: nat, s: Stmt, p1: nat, s1: nat, rest: seq<Stmt>, p2: nat, s2: nat)
      requires eofTok.tokenClass.EOF?
      requires !Stream(pos).tokenClass.RBRA? && !Stream(pos).tokenClass.EOF?
      requires StmtAt(pos, site) == Some(Parse(s, p1, s1))
      requires StmtsAt(p1, s1) == Some(Parse(rest, p2, s2))
      ensures StmtsAt(pos, site) == Some(Parse([s] + rest, p2, s2))
    {
    }

    /** `parseStmt()`: a block, `while`, `if`, `return`, or an expression that is either
        assigned to or stands as a statement. */
    method ParseStmt() returns (s: Stmt)
      requires Valid()
      modifies this
      ensures Valid() && Kept(old(M()), old(error), old(crashed))
      ensures old(!crashed && !token.tokenClass.EOF?) ==> M() < old(M())
      ensures Clean() ==> WellFormedStmt(s)
      ensures Clean() ==> StmtAt(old(ci), old(nextSite)) == Some(Parse(s, ci, nextSite))
      ensures old(Clean()) && StmtAt(old(ci), old(nextSite)).Some? ==> Clean()
      decreases M(), 21
    {
      if crashed {
        s := ExprStmt(NoExpr);
      } else if Accepts(LBRA) {
        ghost var p0, s0 := ci, nextSite;
        var b := ParseBlock();
        s := BlockStmt(b);
        assert Clean() ==> BlockAt(p0, s0) == Some(Parse(b, ci, nextSite));
      } else if Accepts(WHILE) {
        s := ParseWhile();
      } else if Accepts(IF) {
        s := ParseIf();
      } else if Accepts(RETURN) {
        s := ParseReturn();
      } else {
        s := ParseExpStmt();
      }
    }

    /** The `while` branch of `parseStmt()`: `while`, the condition, the body. */
    method ParseWhile() returns (s: Stmt)
      requires Valid() && !crashed && token.tokenClass.WHILE?
      modifies this
      ensures Valid() && Kept(old(M()), old(error), false) && M() < old(M())
      ensures Clean() ==> WellFormedStmt(s)
      ensures Clean() ==> WhileAt(old(ci), old(nextSite)) == Some(Parse(s, ci, nextSite))
      ensures old(Clean()) && WhileAt(old(ci), old(nextSite)).Some? ==> Clean()
      decreases M(), 20
    {
      ghost var p0, s0 := ci, nextSite;
      var _ := Expect(WHILE);
      var e := ParseCondition();
      ghost var p1, s1, ok1 := ci, nextSite, Clean();
      assert ok1 ==> NullFreeExpr(e) && CondAt(p0 + 1, s0) == Some(Parse(e, p1, s1));
      var c := ParseStmt();
      s := While(e, c);
      if Clean() {
        assert ok1;
        WhileStep(p0, s0, e, p1, s1, c, ci, nextSite);
      }
    }

    lemma WhileStep(pos: nat, site: nat, e: Expr, p1: nat, s1: nat, c: Stmt, p2: nat, s2: nat)
      requires eofTok.tokenClass.EOF? && Stream(pos).tokenClass.WHILE?
      requires CondAt(pos + 1, site) == Some(Parse(e, p1, s1))
      requires StmtAt(p1, s1) == Some(Parse(c, p2, s2))
      ensures WhileAt(pos, site) == Some(Parse(While(e, c), p2, s2))
    {
    }

    /** The `if` branch of `parseStmt()`: `if`, the condition, the then-branch, and an
        else-branch if `else` follows. */
    method ParseIf() returns (s: Stmt)
      requires Valid() && !crashed && token.tokenClass.IF?
      modifies this
      ensures Valid() && Kept(old(M()), old(error), false) && M() < old(M())
      ensures Clean() ==> WellFormedStmt(s)
      ensures Clean() ==> IfAt(old(ci), old(nextSite)) == Some(Parse(s, ci, nextSite))
      ensures old(Clean()) && IfAt(old(ci), old(nextSite)).Some? ==> Clean()
      decreases M(), 20
    {
      ghost var p0, s0 := ci, nextSite;
      var _ := Expect(IF);
      var e := ParseCondition();
      ghost var p1, s1, ok1 := ci, nextSite, Clean();
      assert ok1 ==> NullFreeExpr(e) && CondAt(p0 + 1, s0) == Some(Parse(e, p1, s1));
      var code := ParseStmt();
      ghost var p2, s2, ok2 := ci, nextSite, Clean();
      assert ok2 ==> WellFormedStmt(code) && StmtAt(p1, s1) == Some(Parse(code, p2, s2));
      var el := ParseMaybeElse();
      s := If(e, code, el);
      if Clean() {
        assert ok1 && ok2;
        IfStep(p0, s0, e, p1, s1, code, p2, s2, el, ci, nextSite);
      }
    }

    lemma IfStep(pos: nat, site: nat, e: Expr, p1: nat, s1: nat, code: Stmt, p2: nat, s2: nat,
                 el: Option<Stmt>, p3: nat, s3: nat)
      requires eofTok.tokenClass.EOF? && Stream(pos).tokenClass.IF?
      requires CondAt(pos + 1, site) == Some(Parse(e, p1, s1))
      requires StmtAt(p1, s1) == Some(Parse(code, p2, s2))
      requires MaybeElseAt(p2, s2) == Some(Parse(el, p3, s3))
      ensures IfAt(pos, site) == Some(Parse(If(e, code, el), p3, s3))
    {
    }

    /** `"(" exp ")"`, the condition `parseStmt()` reads after `while` and after `if`. */
    method ParseCondition() returns (e: Expr)
      requires Valid() && !crashed
      modifies this
      ensures Valid() && Kept(old(M()), old(error), false)
      ensures Clean() ==> NullFreeExpr(e)
      ensures Clean() ==> CondAt(old(ci), old(nextSite)) == Some(Parse(e, ci, nextSite))
      ensures old(Clean()) && CondAt(old(ci), old(nextSite)).Some? ==> Clean()
      decreases M(), 20
    {
      ghost var p0, t0 := ci, token;
      var _ := Expect(LPAR);
      ghost var p1, s1, ok1 := ci, nextSite, Clean();
      assert ok1 ==> t0.tokenClass.LPAR? && p1 == p0 + 1;
      e := ParseExp();
      ghost var p2, s2, t2, ok2 := ci, nextSite, token, Clean();
      assert ok2 ==> NullFreeExpr(e) && ExprAt(0, p1, s1) == Some(Parse(e, p2, s2));
      var _ := Expect(RPAR);
      if Clean() {
        assert ok1 && ok2 && t2.tokenClass.RPAR?;
      }
    }

    /** The `return` branch of `parseStmt()`: `return`, a value unless `;` follows, `;`. */
    method ParseReturn() returns (s: Stmt)
      requires Valid() && !crashed && token.tokenClass.RETURN?
      modifies this
      ensures Valid() && Kept(old(M()), old(error), false) && M() < old(M())
      ensures Clean() ==> WellFormedStmt(s)
      ensures Clean() ==> ReturnAt(old(ci), old(nextSite)) == Some(Parse(s, ci, nextSite))
      ensures old(Clean()) && ReturnAt(old(ci), old(nextSite)).Some? ==> Clean()
      decreases M(), 20
    {
      ghost var p0, s0 := ci, nextSite;
      var _ := Expect(RETURN);
      var v := ParseMaybeExp();
      s := Return(v);
      ghost var p1, s1, t1, ok1 := ci, nextSite, token, Clean();
      assert ok1 ==> WellFormedStmt(s) && MaybeExpAt(p0 + 1, s0) == Some(Parse(v, p1, s1));
      var _ := Expect(SC);
      if Clean() {
        assert ok1 && t1.tokenClass.SC?;
      }
    }

    /** The last branch of `parseStmt()`: an expression, `= exp` if an assignment
        follows, then `;`. */
    method ParseExpStmt() returns (s: Stmt)
      requires Valid() && !crashed
      requires token.tokenClass !in {LBRA, WHILE, IF, RETURN}
      modifies this
      ensures Valid() && Kept(old(M()), old(error), false)
      ensures old(!token.tokenClass.EOF?) ==> M() < old(M())
      ensures Clean() ==> WellFormedStmt(s)
      ensures Clean() ==> ExpStmtAt(old(ci), old(nextSite)) == Some(Parse(s, ci, nextSite))
      ensures old(Clean()) && ExpStmtAt(old(ci), old(nextSite)).Some? ==> Clean()
      decreases M(), 20
    {
      ghost var p0, s0 := ci, nextSite;
      var e := ParseExp();
      ghost var p1, s1 := ci, nextSite;
      ghost var ok1 := Clean() && NullFreeExpr(e) && ExprAt(0, p0, s0) == Some(Parse(e, p1, s1));
      var o := ParseMaybeAssign();
      ghost var p2, s2, t2 := ci, nextSite, token;
      ghost var ok2 := Clean() && (o.Some? ==> NullFreeExpr(o.value)) && MaybeAssignAt(p1, s1) == Some(Parse(o, p2, s2));
      var _ := Expect(SC);
      s := if o.None? then ExprStmt(e) else Assign(e, o.value);
      if Clean() {
        assert ok1 && ok2 && t2.tokenClass.SC?;
        ExpStmtStep(p0, s0, e, p1, s1, o, p2, s2);
      }
    }

    lemma ExpStmtStep(pos: nat, site: nat, e: Expr, p1: nat, s1: nat, o: Option<Expr>, p2: nat, s2: nat)
      requires eofTok.tokenClass.EOF?
      requires ExprAt(0, pos, site) == Some(Parse(e, p1, s1))
      requires MaybeAssignAt(p1, s1) == Some(Parse(o, p2, s2)) && Stream(p2).tokenClass.SC?
      requires NullFreeExpr(e) && (o.Some? ==> NullFreeExpr(o.value))
      ensures WellFormedStmt(if o.None? then ExprStmt(e) else Assign(e, o.value))
      ensures ExpStmtAt(pos, site)
              == Some(Parse(if o.None? then ExprStmt(e) else Assign(e, o.value), p2 + 1, s2))
    {
    }

    /** `parseMaybeAssign()`: `= exp`, or nothing; an expression that failed to parse is
        the Java `null` and reads as no assignment. */
    method ParseMaybeAssign() returns (o: Option<Expr>)
      requires Valid()
      modifies this
      ensures Valid() && Kept(old(M()), old(error), old(crashed))
      ensures old(token.tokenClass) != ASSIGN ==> o == None && ci == old(ci)
      ensures o.Some? ==> o.value != NoExpr
      ensures Clean() && old(token.tokenClass) == ASSIGN ==> o.Some? && NullFreeExpr(o.value)
      ensures Clean() ==> MaybeAssignAt(old(ci), old(nextSite)) == Some(Parse(o, ci, nextSite))
      ensures old(Clean()) && MaybeAssignAt(old(ci), old(nextSite)).Some? ==> Clean()
      decreases M(), 0
    {
      o := None;
      if !crashed {
        if Accepts(ASSIGN) {
          var _ := Expect(ASSIGN);
          ghost var e1 := error;
          var e := ParseExp();
          if e != NoExpr {
            o := Some(e);
          }
          assert Clean() ==> e1 == 0;
        }
      }
    }

    /** `parseMaybeElse()`: `else stmt`, or no else branch. */
    method ParseMaybeElse() returns (o: Option<Stmt>)
      requires Valid()
      modifies this
      ensures Valid() && Kept(old(M()), old(error), old(crashed))
      ensures old(token.tokenClass) != ELSE ==> o == None && ci == old(ci)
      ensures !crashed && old(token.tokenClass) == ELSE ==> o.Some?
      ensures Clean() && o.Some? ==> WellFormedStmt(o.value)
      ensures Clean() ==> MaybeElseAt(old(ci), old(nextSite)) == Some(Parse(o, ci, nextSite))
      ensures old(Clean()) && MaybeElseAt(old(ci), old(nextSite)).Some? ==> Clean()
      decreases M(), 0
    {
      o := None;
      if !crashed {
        if Accepts(ELSE) {
          var _ := Expect(ELSE);
          ghost var e1 := error;
          var s := ParseStmt();
          o := Some(s);
          assert Clean() ==> e1 == 0;
        }
      }
    }

    /** `parseMaybeExp()`: nothing when the token is `;`, else an expression; one that
        failed to parse is the Java `null`. */
    method ParseMaybeExp() returns (o: Option<Expr>)
      requires Valid()
      modifies this
      ensures Valid() && Kept(old(M()), old(error), old(crashed))
      ensures old(token.tokenClass) == SC ==> o == None && ci == old(ci)
      ensures o.Some? ==> o.value != NoExpr
      ensures Clean() && old(token.tokenClass) != SC ==> o.Some? && NullFreeExpr(o.value)
      ensures Clean() ==> MaybeExpAt(old(ci), old(nextSite)) == Some(Parse(o, ci, nextSite))
      ensures old(Clean()) && MaybeExpAt(old(ci), old(nextSite)).Some? ==> Clean()
      decreases M(), 20
    {
      o := None;
      if !crashed {
        if !Accepts(SC) {
          var e := ParseExp();
          if e != NoExpr {
            o := Some(e);
          }
        }
      }
    }

    // ----------------------------------------------------------------- expressions

    /** `parseExp()`. */
    method ParseExp() returns (r: Expr)
      requires Valid()
      modifies this
      ensures Valid() && Kept(old(M()), old(error), old(crashed))
      ensures old(!crashed && !token.tokenClass.EOF?) ==> M() < old(M())
      ensures Clean() ==> NullFreeExpr(r)
      ensures Clean() ==> ExprAt(0, old(ci), old(nextSite)) == Some(Parse(r, ci, nextSite))
      ensures old(Clean()) && ExprAt(0, old(ci), old(nextSite)).Some? ==> Clean()
      decreases M(), 19
    {
      if crashed {
        r := NoExpr;
      } else {
        r := ParseBinOp();
      }
    }

    /** `parseBinOp()`: the loosest level, `||`. */
    method ParseBinOp() returns (r: Expr)
      requires Valid()
      modifies this
      ensures Valid() && Kept(old(M()), old(error), old(crashed))
      ensures old(!crashed && !token.tokenClass.EOF?) ==> M() < old(M())
      ensures Clean() ==> NullFreeExpr(r)
      ensures Clean() ==> ExprAt(0, old(ci), old(nextSite)) == Some(Parse(r, ci, nextSite))
      ensures old(Clean()) && ExprAt(0, old(ci), old(nextSite)).Some? ==> Clean()
      decreases M(), 18
    {
      if crashed {
        r := NoExpr;
      } else {
        r := ParseOr();
      }
    }

    method ParseOr() returns (r: Expr)
      requires Valid()
      modifies this
      ensures Valid() && Kept(old(M()), old(error), old(crashed))
      ensures old(!crashed && !token.tokenClass.EOF?) ==> M() < old(M())
      ensures Clean() ==> NullFreeExpr(r)
      ensures !crashed ==> TokenLevel(token.tokenClass) != 0
      ensures Clean() ==> ExprAt(0, old(ci), old(nextSite)) == Some(Parse(r, ci, nextSite))
      ensures old(Clean()) && ExprAt(0, old(ci), old(nextSite)).Some? ==> Clean()
      decreases M(), 17
    {
      if crashed {
        r := NoExpr;
      } else {
        var left := ParseAnd();
        r := ParseOrRep(left);
      }
    }

    /** `parseOrRep(left)`: each `|| and` makes `BinOp(left, OR, right)` the new left. */
    method ParseOrRep(left: Expr) returns (r: Expr)
      requires Valid()
      modifies this
      ensures Valid() && Kept(old(M()), old(error), old(crashed))
      ensures LeftSpine(r, left, 0)
      ensures !crashed ==> TokenLevel(token.tokenClass) != 0
      ensures old(TokenLevel(token.tokenClass)) != 0 ==> r == left && ci == old(ci)
      ensures Clean() && NullFreeExpr(left) ==> NullFreeExpr(r)
      ensures Clean() ==> RepAt(0, left, old(ci), old(nextSite)) == Some(Parse(r, ci, nextSite))
      ensures old(Clean()) && RepAt(0, left, old(ci), old(nextSite)).Some? ==> Clean()
      decreases M(), 16
    {
      r := left;
      if !crashed && TokenLevel(token.tokenClass) == 0 {
        var op := BinaryOp(token.tokenClass);
        var _ := Expect(token.tokenClass);
        var right := ParseAnd();
        r := ParseOrRep(BinOp(left, op, right, None));
        LeftSpineTrans(r, BinOp(left, op, right, None), left, 0);
      }
    }

    method ParseAnd() returns (r: Expr)
      requires Valid()
      modifies this
      ensures Valid() && Kept(old(M()), old(error), old(crashed))
      ensures old(!crashed && !token.tokenClass.EOF?) ==> M() < old(M())
      ensures Clean() ==> NullFreeExpr(r)
      ensures !crashed ==> TokenLevel(token.tokenClass) != 1
      ensures Clean() ==> ExprAt(1, old(ci), old(nextSite)) == Some(Parse(r, ci, nextSite))
      ensures old(Clean()) && ExprAt(1, old(ci), old(nextSite)).Some? ==> Clean()
      decreases M(), 15
    {
      if crashed {
        r := NoExpr;
      } else {
        var left := ParseEquality();
        r := ParseAndRep(left);
      }
    }

    method ParseAndRep(left: Expr) returns (r: Expr)
      requires Valid()
      modifies this
      ensures Valid() && Kept(old(M()), old(error), old(crashed))
      ensures LeftSpine(r, left, 1)
      ensures !crashed ==> TokenLevel(token.tokenClass) != 1
      ensures old(TokenLevel(token.tokenClass)) != 1 ==> r == left && ci == old(ci)
      ensures Clean() && NullFreeExpr(left) ==> NullFreeExpr(r)
      ensures Clean() ==> RepAt(1, left, old(ci), old(nextSite)) == Some(Parse(r, ci, nextSite))
      ensures old(Clean()) && RepAt(1, left, old(ci), old(nextSite)).Some? ==> Clean()
      decreases M(), 14
    {
      r := left;
      if !crashed && TokenLevel(token.tokenClass) == 1 {
        var op := BinaryOp(token.tokenClass);
        var _ := Expect(token.tokenClass);
        var right := ParseEquality();
        r := ParseAndRep(BinOp(left, op, right, None));
        LeftSpineTrans(r, BinOp(left, op, right, None), left, 1);
      }
    }

    method ParseEquality() returns (r: Expr)
      requires Valid()
      modifies this
      ensures Valid() && Kept(old(M()), old(error), old(crashed))
      ensures old(!crashed && !token.tokenClass.EOF?) ==> M() < old(M())
      ensures Clean() ==> NullFreeExpr(r)
      ensures !crashed ==> TokenLevel(token.tokenClass) != 2
      ensures Clean() ==> ExprAt(2, old(ci), old(nextSite)) == Some(Parse(r, ci, nextSite))
      ensures old(Clean()) && ExprAt(2, old(ci), old(nextSite)).Some? ==> Clean()
      decreases M(), 13
    {
      if crashed {
        r := NoExpr;
      } else {
        var left := ParseComparision();
        r := ParseEqualityRep(left);
      }
    }

    method ParseEqualityRep(left: Expr) returns (r: Expr)
      requires Valid()
      modifies this
      ensures Valid() && Kept(old(M()), old(error), old(crashed))
      ensures LeftSpine(r, left, 2)
      ensures !crashed ==> TokenLevel(token.tokenClass) != 2
      ensures old(TokenLevel(token.tokenClass)) != 2 ==> r == left && ci == old(ci)
      ensures Clean() && NullFreeExpr(left) ==> NullFreeExpr(r)
      ensures Clean() ==> RepAt(2, left, old(ci), old(nextSite)) == Some(Parse(r, ci, nextSite))
      ensures old(Clean()) && RepAt(2, left, old(ci), old(nextSite)).Some? ==> Clean()
      decreases M(), 12
    {
      r := left;
      if !crashed && TokenLevel(token.tokenClass) == 2 {
        var op := BinaryOp(token.tokenClass);
        var _ := Expect(token.tokenClass);
        var right := ParseComparision();
        r := ParseEqualityRep(BinOp(left, op, right, None));
        LeftSpineTrans(r, BinOp(left, op, right, None), left, 2);
      }
    }

    method ParseComparision() returns (r: Expr)
      requires Valid()
      modifies this
      ensures Valid() && Kept(old(M()), old(error), old(crashed))
      ensures old(!crashed && !token.tokenClass.EOF?) ==> M() < old(M())
      ensures Clean() ==> NullFreeExpr(r)
      ensures !crashed ==> TokenLevel(token.tokenClass) != 3
      ensures Clean() ==> ExprAt(3, old(ci), old(nextSite)) == Some(Parse(r, ci, nextSite))
      ensures old(Clean()) && ExprAt(3, old(ci), old(nextSite)).Some? ==> Clean()
      decreases M(), 11
    {
      if crashed {
        r := NoExpr;
      } else {
        var left := ParseAddition();
        r := ParseComparisionRep(left);
      }
    }

    method ParseComparisionRep(left: Expr) returns (r: Expr)
      requires Valid()
      modifies this
      ensures Valid() && Kept(old(M()), old(error), old(crashed))
      ensures LeftSpine(r, left, 3)
      ensures !crashed ==> TokenLevel(token.tokenClass) != 3
      ensures old(TokenLevel(token.tokenClass)) != 3 ==>
                r == left && ci == old(ci)
      ensures Clean() && NullFreeExpr(left) ==> NullFreeExpr(r)
      ensures Clean() ==> RepAt(3, left, old(ci), old(nextSite)) == Some(Parse(r, ci, nextSite))
      ensures old(Clean()) && RepAt(3, left, old(ci), old(nextSite)).Some? ==> Clean()
      decreases M(), 10
    {
      r := left;
      if !crashed && TokenLevel(token.tokenClass) == 3 {
        var op := BinaryOp(token.tokenClass);
        var _ := Expect(token.tokenClass);
        var right := ParseAddition();
        r := ParseComparisionRep(BinOp(left, op, right, None));
        LeftSpineTrans(r, BinOp(left, op, right, None), left, 3);
      }
    }

    method ParseAddition() returns (r: Expr)
      requires Valid()
      modifies this
      ensures Valid() && Kept(old(M()), old(error), old(crashed))
      ensures old(!crashed && !token.tokenClass.EOF?) ==> M() < old(M())
      ensures Clean() ==> NullFreeExpr(r)
      ensures !crashed ==> TokenLevel(token.tokenClass) != 4
      ensures Clean() ==> ExprAt(4, old(ci), old(nextSite)) == Some(Parse(r, ci, nextSite))
      ensures old(Clean()) && ExprAt(4, old(ci), old(nextSite)).Some? ==> Clean()
      decreases M(), 9
    {
      if crashed {
        r := NoExpr;
      } else {
        var left := ParseMultiplication();
        r := ParseAdditionRep(left);
      }
    }

    method ParseAdditionRep(left: Expr) returns (r: Expr)
      requires Valid()
      modifies this
      ensures Valid() && Kept(old(M()), old(error), old(crashed))
      ensures LeftSpine(r, left, 4)
      ensures !crashed ==> TokenLevel(token.tokenClass) != 4
      ensures old(TokenLevel(token.tokenClass)) != 4 ==> r == left && ci == old(ci)
      ensures Clean() && NullFreeExpr(left) ==> NullFreeExpr(r)
      ensures Clean() ==> RepAt(4, left, old(ci), old(nextSite)) == Some(Parse(r, ci, nextSite))
      ensures old(Clean()) && RepAt(4, left, old(ci), old(nextSite)).Some? ==> Clean()
      decreases M(), 8
    {
      r := left;
      if !crashed && TokenLevel(token.tokenClass) == 4 {
        var op := BinaryOp(token.tokenClass);
        var _ := Expect(token.tokenClass);
        var right := ParseMultiplication();
        r := ParseAdditionRep(BinOp(left, op, right, None));
        LeftSpineTrans(r, BinOp(left, op, right, None), left, 4);
      }
    }

    method ParseMultiplication() returns (r: Expr)
      requires Valid()
      modifies this
      ensures Valid() && Kept(old(M()), old(error), old(crashed))
      ensures old(!crashed && !token.tokenClass.EOF?) ==> M() < old(M())
      ensures Clean() ==> NullFreeExpr(r)
      ensures !crashed ==> TokenLevel(token.tokenClass) != 5
      ensures Clean() ==> ExprAt(5, old(ci), old(nextSite)) == Some(Parse(r, ci, nextSite))
      ensures old(Clean()) && ExprAt(5, old(ci), old(nextSite)).Some? ==> Clean()
      decreases M(), 7
    {
      if crashed {
        r := NoExpr;
      } else {
        ghost var p0, s0 := ci, nextSite;
        var left := ParseUnary();
        assert ExprAt(6, p0, s0) == UnaryAt(p0, s0);
        r := ParseMultiplicationRep(left);
      }
    }

    method ParseMultiplicationRep(left: Expr) returns (r: Expr)
      requires Valid()
      modifies this
      ensures Valid() && Kept(old(M()), old(error), old(crashed))
      ensures LeftSpine(r, left, 5)
      ensures !crashed ==> TokenLevel(token.tokenClass) != 5
      ensures old(TokenLevel(token.tokenClass)) != 5 ==> r == left && ci == old(ci)
      ensures Clean() && NullFreeExpr(left) ==> NullFreeExpr(r)
      ensures Clean() ==> RepAt(5, left, old(ci), old(nextSite)) == Some(Parse(r, ci, nextSite))
      ensures old(Clean()) && RepAt(5, left, old(ci), old(nextSite)).Some? ==> Clean()
      decreases M(), 6
    {
      r := left;
      if !crashed && TokenLevel(token.tokenClass) == 5 {
        var op := BinaryOp(token.tokenClass);
        var _ := Expect(token.tokenClass);
        ghost var p1, s1 := ci, nextSite;
        var right := ParseUnary();
        assert ExprAt(6, p1, s1) == UnaryAt(p1, s1);
        r := ParseMultiplicationRep(BinOp(left, op, right, None));
        LeftSpineTrans(r, BinOp(left, op, right, None), left, 5);
      }
    }

    /** `parseUnary()`: `- unary` becomes `0 - unary`. */
    method ParseUnary() returns (r: Expr)
      requires Valid()
      modifies this
      ensures Valid() && Kept(old(M()), old(error), old(crashed))
      ensures old(!crashed && !token.tokenClass.EOF?) ==> M() < old(M())
      ensures Clean() ==> NullFreeExpr(r)
      ensures old(!crashed && token.tokenClass.MINUS?) ==>
                r.BinOp? && r.left == IntLiteral(0) && r.op == Op.SUB && r.ty == None
      ensures Clean() ==> UnaryAt(old(ci), old(nextSite)) == Some(Parse(r, ci, nextSite))
      ensures old(Clean()) && UnaryAt(old(ci), old(nextSite)).Some? ==> Clean()
      decreases M(), 5
    {
      if crashed {
        r := NoExpr;
      } else if Accepts(MINUS) {
        r := ParseNegation();
      } else {
        r := ParseNoOpExp();
      }
    }

    /** The `-` branch of `parseUnary()`: `- e` becomes `0 - e`. */
    method ParseNegation() returns (r: Expr)
      requires Valid() && !crashed && token.tokenClass.MINUS?
      modifies this
      ensures Valid() && Kept(old(M()), old(error), false) && M() < old(M())
      ensures Clean() ==> NullFreeExpr(r)
      ensures r.BinOp? && r.left == IntLiteral(0) && r.op == Op.SUB && r.ty == None
      ensures Clean() ==> Stream(old(ci)).tokenClass.MINUS?
                          && UnaryAt(old(ci) + 1, old(nextSite)) == Some(Parse(r.right, ci, nextSite))
      ensures old(Clean()) && UnaryAt(old(ci) + 1, old(nextSite)).Some? ==> Clean()
      decreases M(), 4
    {
      var _ := Expect(MINUS);
      ghost var e0 := error;
      var operand := ParseUnary();
      r := BinOp(IntLiteral(0), Op.SUB, operand, None);
      assert Clean() ==> e0 == 0;
    }

    /** `parseNoOpExp()`: an operand, followed by at most one array or field access. A
        token that starts no operand is reported and skipped, giving `null`. */
    method ParseNoOpExp() returns (r: Expr)
      requires Valid()
      modifies this
      ensures Valid() && Kept(old(M()), old(error), old(crashed))
      ensures old(!crashed && !token.tokenClass.EOF?) ==> M() < old(M())
      ensures Clean() ==> NullFreeExpr(r)
      ensures Clean() ==> OperandAt(old(ci), old(nextSite)) == Some(Parse(r, ci, nextSite))
      ensures old(Clean()) && OperandAt(old(ci), old(nextSite)).Some? ==> Clean()
      decreases M(), 4
    {
      r := NoExpr;
      if !crashed {
        ghost var p0, s0 := ci, nextSite;
        if IsOperandStart(token.tokenClass) {
          r := ParsePrimary();
          r := ParseArrayOrFieldAccess(r);
        } else {
          assert PrimaryAt(p0, s0).None?;
          // reported and skipped; no access is parsed after it
          Error();
          NextToken();
        }
      }
    }

    /** The operand `parseNoOpExp()` builds by the current token: a variable or call, a
        literal, a cast or bracket, a `*` or a `sizeof`. An integer literal that does not
        fit an `int`, and a character literal without a character, throw. */
    method ParsePrimary() returns (r: Expr)
      requires Valid() && !crashed && IsOperandStart(token.tokenClass)
      modifies this
      ensures Valid() && Kept(old(M()), old(error), false)
      ensures !crashed ==> M() < old(M())
      ensures Clean() ==> NullFreeExpr(r)
      ensures old(token.tokenClass) == INT_LITERAL ==>
                (crashed <==> ParseInt(old(token.data)).None?)
                && (!crashed ==> r == IntLiteral(ParseInt(old(token.data)).value))
      ensures old(token.tokenClass) == CHAR_LITERAL ==>
                (crashed <==> old(token.data) == []) && (!crashed ==> r == ChrLiteral(old(token.data[0])))
      ensures old(token.tokenClass) == STRING_LITERAL ==> r == StrLiteral(old(token.data))
      ensures Clean() ==> PrimaryAt(old(ci), old(nextSite)) == Some(Parse(r, ci, nextSite))
      ensures old(Clean()) && PrimaryAt(old(ci), old(nextSite)).Some? ==> Clean()
      decreases M(), 2
    {
      r := NoExpr;
      if Accepts(IDENTIFIER) {
        r := ParseIdentOrFunCall();
      } else if Accepts(INT_LITERAL) {
        var value := ParseInt(token.data);
        if value.None? {
          crashed := true;
        } else {
          r := IntLiteral(value.value);
          var _ := Expect(INT_LITERAL);
        }
      } else if Accepts(CHAR_LITERAL) {
        if token.data == [] {
          crashed := true;
        } else {
          r := ChrLiteral(token.data[0]);
          var _ := Expect(CHAR_LITERAL);
        }
      } else if Accepts(STRING_LITERAL) {
        r := StrLiteral(token.data);
        var _ := Expect(STRING_LITERAL);
      } else if Accepts(LPAR) {
        r := ParseBracketOrTypeCast();
      } else if Accepts(ASTERIX) {
        r := ParseValueAt();
      } else {
        r := ParseSizeOf();
      }
    }

    /** `parseValueAt()`, called when the token is `*`. */
    method ParseValueAt() returns (r: Expr)
      requires Valid() && token.tokenClass.ASTERIX?
      modifies this
      ensures Valid() && Kept(old(M()), old(error), old(crashed))
      ensures old(!crashed) ==> M() < old(M())
      ensures Clean() ==> NullFreeExpr(r)
      ensures r.ValueAtExpr? || crashed
      ensures Clean() ==> ValueAtAt(old(ci), old(nextSite)) == Some(Parse(r, ci, nextSite))
      ensures old(Clean()) && ValueAtAt(old(ci), old(nextSite)).Some? ==> Clean()
      decreases M(), 0
    {
      if crashed {
        r := NoExpr;
      } else {
        var _ := Expect(ASTERIX);
        var e := ParseExp();
        r := ValueAtExpr(e, None);
      }
    }

    /** `parseIdentOrFunCall()`, called when the token is an identifier: a call when `(`
        follows, else a variable. */
    method ParseIdentOrFunCall() returns (r: Expr)
      requires Valid() && token.tokenClass.IDENTIFIER?
      modifies this
      ensures Valid() && Kept(old(M()), old(error), old(crashed))
      ensures old(!crashed) ==> M() < old(M())
      ensures Clean() ==> NullFreeExpr(r)
      ensures !crashed ==> r.VarExpr? || r.FunCallExpr?
      ensures r.VarExpr? ==> r == VarExpr(old(token.data), None, None)
      ensures r.FunCallExpr? ==> r.name == old(token.data) && r.fd.None? && r.ty.None?
      ensures Clean() ==> IdentOrCallAt(old(ci), old(nextSite)) == Some(Parse(r, ci, nextSite))
      ensures old(Clean()) && IdentOrCallAt(old(ci), old(nextSite)).Some? ==> Clean()
      decreases M(), 0
    {
      if crashed {
        r := NoExpr;
      } else {
        var id := token.data;
        var _ := Expect(IDENTIFIER);
        if Accepts(LPAR) {
          var args := ParseFunCall();
          r := FunCallExpr(id, args, None, None);
        } else {
          r := VarExpr(id, None, None);
        }
      }
    }

    /** `parseFunCall()`, called when the token is `(`: the arguments and `)`. */
    method ParseFunCall() returns (args: seq<Expr>)
      requires Valid() && token.tokenClass.LPAR?
      modifies this
      ensures Valid() && Kept(old(M()), old(error), old(crashed))
      ensures Clean() ==> NullFreeArgs(args)
      ensures Clean() ==> ArgsAt(old(ci), old(nextSite)) == Some(Parse(args, ci, nextSite))
      ensures old(Clean()) && ArgsAt(old(ci), old(nextSite)).Some? ==> Clean()
      decreases M(), 0
    {
      args := [];
      if !crashed {
        ghost var p0, s0 := ci, nextSite;
        var _ := Expect(LPAR);
        args := ParseMaybeArgs();
        ghost var p1 := ci;
        var _ := Expect(RPAR);
        if Clean() {
          ArgsStep(p0, s0, args, p1, nextSite);
        }
      }
    }

    lemma ArgsStep(pos: nat, site: nat, args: seq<Expr>, p1: nat, s1: nat)
      requires eofTok.tokenClass.EOF?
      requires Stream(pos).tokenClass.LPAR? && MaybeArgsAt(pos + 1, site) == Some(Parse(args, p1, s1))
      requires Stream(p1).tokenClass.RPAR?
      ensures ArgsAt(pos, site) == Some(Parse(args, p1 + 1, s1))
    {
    }

    /** `parseMaybeArgs()`: no arguments before `)`, else one or more. */
    method ParseMaybeArgs() returns (args: seq<Expr>)
      requires Valid()
      modifies this
      ensures Valid() && Kept(old(M()), old(error), old(crashed))
      ensures old(token.tokenClass) == RPAR ==> args == [] && ci == old(ci)
      ensures Clean() ==> NullFreeArgs(args)
      ensures Clean() ==> MaybeArgsAt(old(ci), old(nextSite)) == Some(Parse(args, ci, nextSite))
      ensures old(Clean()) && MaybeArgsAt(old(ci), old(nextSite)).Some? ==> Clean()
      decreases M(), 20
    {
      args := [];
      if !crashed {
        if !Accepts(RPAR) {
          var e := ParseExp();
          var rest := ParseExtraArg();
          args := [e] + rest;
        }
      }
    }

    /** `parseExtraArg()`: `, exp` for as long as a comma follows. */
    method ParseExtraArg() returns (args: seq<Expr>)
      requires Valid()
      modifies this
      ensures Valid() && Kept(old(M()), old(error), old(crashed))
      ensures !crashed ==> !token.tokenClass.COMMA?
      ensures Clean() ==> NullFreeArgs(args)
      ensures Clean() ==> ExtraArgsAt(old(ci), old(nextSite)) == Some(Parse(args, ci, nextSite))
      ensures old(Clean()) && ExtraArgsAt(old(ci), old(nextSite)).Some? ==> Clean()
      decreases M(), 1
    {
      if !crashed && Accepts(COMMA) {
        args := ParseMoreArgs();
      } else {
        args := [];
      }
    }

    /** The comma branch of `parseExtraArg()`: an expression, then the rest. */
    method ParseMoreArgs() returns (args: seq<Expr>)
      requires Valid() && !crashed && token.tokenClass.COMMA?
      modifies this
      ensures Valid() && Kept(old(M()), old(error), false)
      ensures !crashed ==> !token.tokenClass.COMMA?
      ensures Clean() ==> NullFreeArgs(args)
      ensures Clean() ==> ExtraArgsAt(old(ci), old(nextSite)) == Some(Parse(args, ci, nextSite))
      ensures old(Clean()) && ExtraArgsAt(old(ci), old(nextSite)).Some? ==> Clean()
      decreases M(), 0
    {
      ghost var p0, s0 := ci, nextSite;
      var _ := Expect(COMMA);
      ghost var e0 := error;
      var e := ParseExp();
      ghost var p1, s1, e1 := ci, nextSite, error;
      var rest := ParseExtraArg();
      args := [e] + rest;
      if Clean() {
        assert e0 == 0 && e1 == 0;
        ExtraArgStep(p0, s0, e, p1, s1, rest, ci, nextSite);
      }
    }

    lemma ExtraArgStep(pos: nat, site: nat, e: Expr, p1: nat, s1: nat, rest: seq<Expr>, p2: nat, s2: nat)
      requires eofTok.tokenClass.EOF? && Stream(pos).tokenClass.COMMA?
      requires ExprAt(0, pos + 1, site) == Some(Parse(e, p1, s1))
      requires ExtraArgsAt(p1, s1) == Some(Parse(rest, p2, s2))
      ensures ExtraArgsAt(pos, site) == Some(Parse([e] + rest, p2, s2))
    {
    }

    /** `parseSizeOf()`, called when the token is `sizeof`: `sizeof ( type )`. */
    method ParseSizeOf() returns (r: Expr)
      requires Valid() && token.tokenClass.SIZEOF?
      modifies this
      ensures Valid() && Kept(old(M()), old(error), old(crashed))
      ensures old(!crashed) ==> M() < old(M())
      ensures !crashed ==> r.SizeOfExpr? && r.ty.None?
      ensures Clean() ==> SizeOfAt(old(ci), old(nextSite)) == Some(Parse(r, ci, nextSite))
      ensures old(Clean()) && SizeOfAt(old(ci), old(nextSite)).Some? ==> Clean()
      decreases M(), 0
    {
      if crashed {
        r := NoExpr;
      } else {
        ghost var p0, s0 := ci, nextSite;
        var _ := Expect(SIZEOF);
        ghost var t1 := token;
        var _ := Expect(LPAR);
        ghost var ok1 := Clean();
        assert ok1 ==> t1.tokenClass.LPAR? && ci == p0 + 2 && nextSite == s0;
        var t, p1, s1 := ParseClosedType();
        r := SizeOfExpr(t, None);
      }
    }

    /** `parseBracketOrTypeCast()`, called when the token is `(`: a cast when a type
        follows, else a bracketed expression, which leaves no node of its own. */
    method ParseBracketOrTypeCast() returns (r: Expr)
      requires Valid() && token.tokenClass.LPAR?
      modifies this
      ensures Valid() && Kept(old(M()), old(error), old(crashed))
      ensures old(!crashed) ==> M() < old(M())
      ensures Clean() ==> NullFreeExpr(r)
      ensures Clean() ==> BracketOrCastAt(old(ci), old(nextSite)) == Some(Parse(r, ci, nextSite))
      ensures old(Clean()) && BracketOrCastAt(old(ci), old(nextSite)).Some? ==> Clean()
      ensures old(!crashed) && !crashed && IsTypeStart(Stream(old(ci) + 1).tokenClass) ==> r.TypecastExpr?
      decreases M(), 0
    {
      if crashed {
        r := NoExpr;
      } else {
        var _ := Expect(LPAR);
        if AcceptsType() {
          r := ParseTypeCast();
        } else {
          r := ParseBrackets();
        }
      }
    }

    method ParseBrackets() returns (r: Expr)
      requires Valid()
      modifies this
      ensures Valid() && Kept(old(M()), old(error), old(crashed))
      ensures Clean() ==> NullFreeExpr(r)
      ensures Clean() ==> BracketsAt(old(ci), old(nextSite)) == Some(Parse(r, ci, nextSite))
      ensures old(Clean()) && BracketsAt(old(ci), old(nextSite)).Some? ==> Clean()
      decreases M(), 20
    {
      if crashed {
        r := NoExpr;
      } else {
        r := ParseExp();
        var _ := Expect(RPAR);
      }
    }

    /** `parseTypeCast()`: `type ) exp`, the `(` already consumed. */
    method ParseTypeCast() returns (r: Expr)
      requires Valid() && !crashed
      modifies this
      ensures Valid() && Kept(old(M()), old(error), false)
      ensures Clean() ==> NullFreeExpr(r)
      ensures r.TypecastExpr? && r.ty.None?
      ensures Clean() ==> CastAt(old(ci), old(nextSite)) == Some(Parse(r, ci, nextSite))
      ensures old(Clean()) && CastAt(old(ci), old(nextSite)).Some? ==> Clean()
      decreases M(), 21
    {
      ghost var p0, s0 := ci, nextSite;
      var t, p1, s1 := ParseClosedType();
      r := ParseCastOperand(t, p0, s0, p1, s1);
    }

    /** The expression a cast converts, once the type and `)` are read from `pos`. */
    method ParseCastOperand(t: Type, ghost pos: nat, ghost site: nat, ghost p1: nat, ghost s1: nat) returns (r: Expr)
      requires Valid()
      requires Clean() ==> TypeAt(pos, site) == Some(Parse(t, p1, s1))
                           && Stream(p1).tokenClass.RPAR? && ci == p1 + 1 && nextSite == s1
      modifies this
      ensures Valid() && Kept(old(M()), old(error), old(crashed))
      ensures Clean() ==> NullFreeExpr(r)
      ensures r.TypecastExpr? && r.ty.None?
      ensures Clean() ==> CastAt(pos, site) == Some(Parse(r, ci, nextSite))
      ensures old(Clean()) && CastAt(pos, site).Some? ==> Clean()
      decreases M(), 20
    {
      ghost var e0 := error;
      var e := ParseExp();
      r := TypecastExpr(t, e, None);
      if Clean() {
        assert e0 == 0;
        CastStep(pos, site, t, p1, s1, e, ci, nextSite);
      }
    }

    /** A type and the `)` after it: the end of a cast's `(type)` and of `sizeof(type)`. */
    method ParseClosedType() returns (t: Type, ghost p1: nat, ghost s1: nat)
      requires Valid() && !crashed
      modifies this
      ensures Valid() && Kept(old(M()), old(error), false)
      ensures Clean() ==> TypeAt(old(ci), old(nextSite)) == Some(Parse(t, p1, s1))
                          && Stream(p1).tokenClass.RPAR? && ci == p1 + 1 && nextSite == s1
      ensures (old(Clean()) && TypeAt(old(ci), old(nextSite)).Some?
               && Stream(TypeAt(old(ci), old(nextSite)).value.end).tokenClass.RPAR?) ==> Clean()
      decreases M(), 18
    {
      ghost var p0, s0 := ci, nextSite;
      t := ParseType();
      p1, s1 := ci, nextSite;
      ghost var e1 := error;
      var _ := Expect(RPAR);
      assert Clean() ==> e1 == 0;
    }

    lemma CastStep(pos: nat, site: nat, t: Type, p1: nat, s1: nat, e: Expr, p2: nat, s2: nat)
      requires eofTok.tokenClass.EOF?
      requires TypeAt(pos, site) == Some(Parse(t, p1, s1)) && Stream(p1).tokenClass.RPAR?
      requires ExprAt(0, p1 + 1, s1) == Some(Parse(e, p2, s2))
      ensures CastAt(pos, site) == Some(Parse(TypecastExpr(t, e, None), p2, s2))
    {
    }

    /** `parseArrayOrFieldAccess(previous)`: one `[exp]` or `.name` after an operand, or
        the operand itself. */
    method ParseArrayOrFieldAccess(previous: Expr) returns (r: Expr)
      requires Valid()
      modifies this
      ensures Valid() && Kept(old(M()), old(error), old(crashed))
      ensures r == previous || (r.ArrayAccessExpr? && r.arr == previous && r.ty.None?)
              || (r.FieldAccessExpr? && r.struct == previous && r.ty.None?)
      ensures old(!token.tokenClass.LSBR? && !token.tokenClass.DOT?) ==> r == previous && ci == old(ci)
      ensures Clean() && NullFreeExpr(previous) ==> NullFreeExpr(r)
      ensures Clean() ==> AccessAt(previous, old(ci), old(nextSite)) == Some(Parse(r, ci, nextSite))
      ensures old(Clean()) && AccessAt(previous, old(ci), old(nextSite)).Some? ==> Clean()
      decreases M(), 1
    {
      r := previous;
      if !crashed {
        if Accepts(LSBR) {
          r := ParseArrayAccess(r);
        } else if Accepts(DOT) {
          r := ParseFieldAccess(r);
        }
      }
    }

    /** `parseArrayAccess(arr)`, called when the token is `[`. */
    method ParseArrayAccess(arr: Expr) returns (r: Expr)
      requires Valid() && !crashed && token.tokenClass.LSBR?
      modifies this
      ensures Valid() && Kept(old(M()), old(error), false)
      ensures r.ArrayAccessExpr? && r.arr == arr && r.ty.None?
      ensures Clean() && NullFreeExpr(arr) ==> NullFreeExpr(r)
      ensures Clean() ==> ArrayAccessAt(arr, old(ci), old(nextSite)) == Some(Parse(r, ci, nextSite))
      ensures old(Clean()) && ArrayAccessAt(arr, old(ci), old(nextSite)).Some? ==> Clean()
      decreases M(), 0
    {
      ghost var p0, s0 := ci, nextSite;
      var _ := Expect(LSBR);
      ghost var e0 := error;
      var idx, p1 := ParseIndex();
      r := ArrayAccessExpr(arr, idx, None);
      if Clean() {
        assert e0 == 0;
        ArrayAccessStep(arr, p0, s0, idx, p1, nextSite);
      }
    }

    /** The index of an array access and the `]` after it. */
    method ParseIndex() returns (idx: Expr, ghost p1: nat)
      requires Valid()
      modifies this
      ensures Valid() && Kept(old(M()), old(error), old(crashed))
      ensures Clean() ==> NullFreeExpr(idx)
      ensures Clean() ==> ExprAt(0, old(ci), old(nextSite)) == Some(Parse(idx, p1, nextSite))
                          && Stream(p1).tokenClass.RSBR? && ci == p1 + 1
      ensures (old(Clean()) && ExprAt(0, old(ci), old(nextSite)).Some?
               && Stream(ExprAt(0, old(ci), old(nextSite)).value.end).tokenClass.RSBR?) ==> Clean()
      decreases M(), 20
    {
      idx := ParseExp();
      p1 := ci;
      ghost var e1 := error;
      var _ := Expect(RSBR);
      assert Clean() ==> e1 == 0;
    }

    lemma ArrayAccessStep(arr: Expr, pos: nat, site: nat, i: Expr, p1: nat, s1: nat)
      requires eofTok.tokenClass.EOF?
      requires Stream(pos).tokenClass.LSBR? && ExprAt(0, pos + 1, site) == Some(Parse(i, p1, s1))
      requires Stream(p1).tokenClass.RSBR?
      ensures ArrayAccessAt(arr, pos, site) == Some(Parse(ArrayAccessExpr(arr, i, None), p1 + 1, s1))
    {
    }

    /** `parseFieldAccess(struct)`: `.` and a field name. */
    method ParseFieldAccess(struct: Expr) returns (r: Expr)
      requires Valid()
      modifies this
      ensures Valid() && Kept(old(M()), old(error), old(crashed))
      ensures r == struct || (r.FieldAccessExpr? && r.struct == struct && r.ty.None?)
      ensures NullFreeExpr(struct) ==> NullFreeExpr(r)
      ensures Clean() ==> FieldAccessAt(struct, old(ci), old(nextSite)) == Some(Parse(r, ci, nextSite))
      ensures old(Clean()) && FieldAccessAt(struct, old(ci), old(nextSite)).Some? ==> Clean()
      decreases M(), 0
    {
      if crashed {
        r := struct;
      } else {
        var _ := Expect(DOT);
        var id := token.data;
        var _ := Expect(IDENTIFIER);
        r := FieldAccessExpr(struct, id, None);
      }
    }
  }
}
