# A verified model of a MiniC compiler front end and MIPS code generator

This project models a teaching compiler for MiniC, a small subset of C. The compiler is
written in Java. The model covers every stage that turns source text into MIPS assembly:

- the tokeniser;
- the recursive-descent parser, which builds the abstract syntax tree;
- the AST printer;
- structural type equality;
- scopes, name analysis and type checking;
- the pass that writes string literals into the data section;
- the code generator: a register pool, struct and frame layout, constant folding,
  comparisons, short-circuit operators, `if`, `while` and assignment.

Each stage has two parts:

- Pure functions of the input and the stage's state, which serve as its specification
  (`Lexer.Next`, `TypeChecking.CheckExpr`, `CodeGen.GenExpr`, ...).
- A class that runs the stage the way the Java does, one field update at a time, with loops
  where the Java has loops. Its methods are proved to compute those functions
  (`Lexer.Tokeniser`, `Parsing.Parser`, `NameAnalysis.NameAnalyser`,
  `TypeChecking.TypeChecker`, `StringLiterals.StringLiteralVisitor`,
  `Generator.CodeGenerator`).

The parser's specification is a grammar function per parse method (`ProgramAt`, `StmtAt`,
`ExprAt`, ...). Each gives the tree and the position after it, or nothing where the Java
reports an error or throws. Every parse method is tied to its grammar function in both
directions. A parse that ends with no error and no crash built what the function gives. A
parse that starts with no error, on tokens the function accepts, ends with no error and no
crash.

Lemmas about the specification functions state what each stage promises. They also state
what it actually does where that differs from the evident intent. The compiler is an early
student snapshot, and its quirks are reproduced as written, each exposed by a lemma:

- the tokeniser drops the first digit of every integer literal;
- `/**/` does not close a comment, and neither does `/* a **/`;
- name analysis throws on a `sizeof` with no result type, which is every `sizeof` the
  parser builds, at any position in a function body, and on every `return;`;
- the struct redefinition check compares each entry with itself;
- the type checker compares types by object identity, so two string literals never match;
- `||` compiles to the same code as `&&`;
- the general subtraction path writes `addi` with a register operand;
- two of the comparison fast paths compute `>=`;
- `if` never frees its condition's register, and an `if` without `else` throws;
- locals are loaded from `-offset($sp)` but stored to `offset($sp)`;
- constant folding wraps at 32 bits;
- the string pass writes a backslash undoubled;
- the printer writes `Return(,e)`, and prints a checked `sizeof(t)` as `SizeOfExpr(INT)`.

The modules are:

- `Wrappers`: `Option`.
- `Java`: `int` arithmetic and `Integer.toString`.
- `Ast`: the tree. Composite types carry an allocation `Site` that stands for Java object
  identity.
- `Types`: type equality.
- `Lexer`: the tokeniser.
- `Parsing`: the parser.
- `AstPrinter`: the printer.
- `Scopes`: `Scope`.
- `NameAnalysis` and `TypeChecking`: the two semantic passes.
- `StringLiterals`: the string pass.
- `Assembly`: MIPS instructions and the meaning of straight-line code.
- `CodeGen`: the code generator's specification.
- `Generator`: the `CodeGenerator` class.
- `CodeGenFacts` and `LayoutFacts`: properties of the generated code.

The Java's `equals` methods on types are named `Equals` in `StructType` and `BaseType`,
while the interface declares `CheckIfTypesAreEqualThisFunctionHasALongName`. The model
takes `Equals` as the implementation of the structural test, as the other two type classes
do.

## Model

| member | source | states |
|---|---|---|
| Java.Wrap32 | src/gen/CodeGenerator.java:400 | The wrapped value is congruent to the unbounded one modulo 2^32 and equals it when it fits an `int` |
| Java.AddInt | src/gen/CodeGenerator.java:400 | Java `int` addition is the mathematical sum modulo 2^32 |
| Java.SubInt | src/gen/CodeGenerator.java:438 | Java `int` subtraction is the mathematical difference modulo 2^32 |
| Java.MulInt | src/gen/CodeGenerator.java:494 | Java `int` multiplication is the mathematical product modulo 2^32 |
| Java.WrapUnique | src/gen/CodeGenerator.java:400 | Exactly one `int` is congruent to a given integer |
| Java.CongruentTrans | src/gen/CodeGenerator.java:400 | Congruence modulo 2^32 is transitive |
| Java.NegateThenAdd | src/gen/CodeGenerator.java:431-470 | `(0 - x) + k` equals `k - x` in 32-bit arithmetic |
| Java.AddNegation | src/gen/CodeGenerator.java:431-470 | Adding the wrapped negation of `k` is subtracting `k` |
| Java.AddWrapsAtMax | src/gen/CodeGenerator.java:400 | `2147483647 + 1` is `-2147483648` |
| Java.NatToString | src/ast/ASTPrinter.java:142 | The decimal form of a natural number is non-empty, all digits, with no leading zero |
| Java.IntToString | src/ast/ASTPrinter.java:142 | The decimal form of an `int` starts with `-` exactly when the value is negative |
| Java.NatToStringRoundTrip | src/ast/ASTPrinter.java:142 | Reading the decimal digits back gives the number |
| Java.NatToStringInjective | src/ast/ASTPrinter.java:142 | Different numbers print differently |
| Java.DigitChar | src/ast/ASTPrinter.java:142 | A decimal digit prints as a character from `0` to `9` |
| Types.EqualIsSameShape | src/ast/PointerType.java:15-23 | Structural equality holds exactly when the two types have the same shape; allocation sites are ignored |
| Types.EqualReflexive | src/ast/ArrayType.java:17-26 | Every type equals itself |
| Types.EqualSymmetric | src/ast/ArrayType.java:17-26 | Equality is symmetric |
| Types.EqualTransitive | src/ast/ArrayType.java:17-26 | Equality is transitive |
| Types.BaseEqualIsIdentity | src/ast/BaseType.java:10-13 | A base type equals exactly the same base constant, and no composite type |
| Types.PointerEqual | src/ast/PointerType.java:15-23 | A pointer type never equals a non-pointer; otherwise equality is that of the pointees |
| Types.ArrayEqual | src/ast/ArrayType.java:17-26 | An array type never equals a non-array or an array of another length; otherwise equality is that of the elements |
| Types.StructEqual | src/ast/StructType.java:15-22 | A struct type equals exactly the struct types with the same name |
| Types.PointersEqual | src/ast/PointerType.java:15-23 | n pointer levels over t equal m levels over u, for non-pointers t and u, iff n = m and t equals u |
| Lexer.LineEnd | src/lexer/Tokeniser.java:71-73 | The skip-to-newline loop stops at the first newline at or after its start, or at the end of input |
| Lexer.CommentEnd | src/lexer/Tokeniser.java:101-114 | A block comment that closes ends more than two characters after its opening `*` |
| Lexer.StringBody | src/lexer/Tokeniser.java:218-252 | A closed string literal ends after its start |
| Lexer.Digits | src/lexer/Tokeniser.java:261-264 | The digit loop stops at a position inside the input |
| Lexer.IdentChars | src/lexer/Tokeniser.java:315-318 | The identifier loop stops at a position inside the input |
| Lexer.MatchInclude | src/lexer/Tokeniser.java:63-70 | A full match of `include` ends seven characters on; a mismatch is at a character inside the input |
| Lexer.Operator | src/lexer/Tokeniser.java:130-184 | An operator token consumes input and reports at most one error |
| Lexer.IncludeToken | src/lexer/Tokeniser.java:62-75 | `#include` consumes input and reports at most one error |
| Lexer.StringToken | src/lexer/Tokeniser.java:215-256 | A string literal consumes input and reports no error |
| Lexer.IntegerToken | src/lexer/Tokeniser.java:258-266 | An integer literal consumes input and reports no error |
| Lexer.CharToken | src/lexer/Tokeniser.java:268-309 | A character literal consumes input and reports at most one error |
| Lexer.Word | src/lexer/Tokeniser.java:311-344 | An identifier or keyword consumes input and reports no error |
| Lexer.Token1 | src/lexer/Tokeniser.java:62-348 | Any token but whitespace and `/` consumes input and reports at most one error |
| Lexer.Next | src/lexer/Tokeniser.java:49-349 | One `next()` never moves back, consumes input unless it returns EOF, and reports at most one error |
| Lexer.Lex | src/lexer/Tokeniser.java:30-44 | The token stream ends with exactly one EOF token, its last |
| Lexer.ErrorIffInvalid | src/lexer/Tokeniser.java:25-28 | `next()` reports an error exactly when it returns an INVALID token |
| Lexer.LexErrorsCountInvalid | src/lexer/Tokeniser.java:17-19 | The error count equals the number of INVALID tokens in the stream |
| Lexer.WhitespaceSkipped | src/lexer/Tokeniser.java:57-60 | Lexing from the start of a run of whitespace is lexing from its end |
| Lexer.EndIsEof | src/lexer/Tokeniser.java:34-36 | After nothing but whitespace, the stream is one EOF token at the end position |
| Lexer.TokenAtFirstCharacter | src/lexer/Tokeniser.java:51-52 | Every token but EOF carries the line and column of its first non-blank character |
| Lexer.Token1Located | src/lexer/Tokeniser.java:51-52 | A token read at a character that starts one carries that character's position |
| Lexer.TwoCharacterOperators | src/lexer/Tokeniser.java:130-184 | `>=`, `<=`, `==`, `!=`, `&&` and `\|\|` are read as one token, and `>`, `<`, `=` alone otherwise |
| Lexer.Unrecognised | src/lexer/Tokeniser.java:346-348 | A lone `!`, `&`, `\|` or any character that starts no token is one INVALID token and one error |
| Lexer.SlashAndLineComment | src/lexer/Tokeniser.java:94-120 | A bare `/` is DIV, and `//` skips to the end of the line |
| Lexer.CommentSkipped | src/lexer/Tokeniser.java:104-114 | The comment loop ends right after the first closing `*/` it reaches |
| Lexer.BlockComment | src/lexer/Tokeniser.java:101-111 | A block comment produces no token: lexing resumes after it |
| Lexer.ShortestCommentUnclosed | src/lexer/Tokeniser.java:103-111 | `/**/` does not close its comment, so the rest of the input is comment |
| Lexer.DoubleStarUnclosed | src/lexer/Tokeniser.java:104-114 | `/* a **/` does not close its comment: the loop steps over the first `*` with the character before it and takes the second with the `/` |
| Lexer.IdentCharsRun | src/lexer/Tokeniser.java:315-318 | The identifier loop reads a whole run of identifier characters |
| Lexer.WordRead | src/lexer/Tokeniser.java:311-342 | A word is its keyword token, or an IDENTIFIER carrying its text |
| Lexer.DigitsRun | src/lexer/Tokeniser.java:261-264 | The digit loop reads a whole run of digits |
| Lexer.IntLiteralDropsFirstDigit | src/lexer/Tokeniser.java:258-266 | A run of digits is one INT_LITERAL whose data leaves out the first digit |
| Lexer.StringBodyQuoted | src/lexer/Tokeniser.java:218-252 | The string loop reads the escaped form of any text back as that text |
| Lexer.StringBodyStep | src/lexer/Tokeniser.java:219-251 | One escaped or plain character reads back as itself |
| Lexer.StringLiteralRoundTrip | src/lexer/Tokeniser.java:215-254 | The quoted, escaped form of any text lexes to a STRING_LITERAL carrying that text |
| Lexer.CharLiteralRead | src/lexer/Tokeniser.java:268-277 | `'c'` is a CHAR_LITERAL carrying `c`, and `''` one carrying nothing |
| Lexer.IncludeRead | src/lexer/Tokeniser.java:62-74 | `#include` is an INCLUDE token that skips the rest of its line |
| Lexer.HashWithoutInclude | src/lexer/Tokeniser.java:62-69 | `#` followed by anything but `include` is an INVALID token and one error |
| Lexer.MatchIncludeRun | src/lexer/Tokeniser.java:63-70 | The include loop matches all seven letters when they are there |
| Lexer.MatchIncludeStops | src/lexer/Tokeniser.java:63-70 | The include loop stops with a mismatch at a wrong letter |
| Lexer.DigitDropExample | src/lexer/Tokeniser.java:260-265 | `12;` lexes to an INT_LITERAL carrying `2` |
| Lexer.Tokeniser.constructor | src/lexer/Tokeniser.java:21-23 | A new tokeniser stands at the start of its input with no errors |
| Lexer.Tokeniser.NextToken | src/lexer/Tokeniser.java:30-44 | The token, the scanner position and the error count are those `Next` gives |
| Lexer.Tokeniser.AfterSlash | src/lexer/Tokeniser.java:94-120 | The `/` branch computes what `Next` gives |
| Lexer.Tokeniser.AfterCommentStart | src/lexer/Tokeniser.java:101-111 | The block-comment branch computes what `Next` gives |
| Lexer.Tokeniser.Eof | src/lexer/Tokeniser.java:34-36 | End of input is an EOF token at the end position, with no error |
| Lexer.Tokeniser.ScanToken | src/lexer/Tokeniser.java:62-348 | The branches past whitespace and `/` compute what `Token1` gives |
| Lexer.Tokeniser.ScanOperator | src/lexer/Tokeniser.java:130-184 | The operator branches compute what `Operator` gives |
| Lexer.Tokeniser.ScanInclude | src/lexer/Tokeniser.java:62-75 | The `#` branch computes what `IncludeToken` gives |
| Lexer.Tokeniser.SkipLine | src/lexer/Tokeniser.java:71-73 | The scanner ends where `LineEnd` says |
| Lexer.Tokeniser.SkipComment | src/lexer/Tokeniser.java:103-114 | The comment loop ends where `CommentEnd` says, or reports that the input ended inside the comment |
| Lexer.Tokeniser.ScanString | src/lexer/Tokeniser.java:215-255 | The string branch computes what `StringToken` gives |
| Lexer.Tokeniser.ScanDigits | src/lexer/Tokeniser.java:258-266 | The digit branch computes what `IntegerToken` gives |
| Lexer.Tokeniser.ScanIdentifier | src/lexer/Tokeniser.java:311-344 | The identifier branch computes what `Word` gives |
| Lexer.Tokeniser.ScanCharLiteral | src/lexer/Tokeniser.java:268-309 | The character-literal branch computes what `CharToken` gives |
| Lexer.NextAtHash | src/lexer/Tokeniser.java:62-75 | `#` always starts the include branch |
| Lexer.NextAtDigit | src/lexer/Tokeniser.java:258-266 | A digit always starts an integer literal |
| Lexer.NextAtWordStart | src/lexer/Tokeniser.java:311-344 | A letter or `_` always starts an identifier or keyword |
| Lexer.NextAtQuote | src/lexer/Tokeniser.java:215-256 | A `"` always starts a string literal |
| Parsing.ParseInt | src/parser/Parser.java:433 | `Integer.parseInt` succeeds only on non-empty text |
| Parsing.ParseIntRoundTrip | src/parser/Parser.java:433 | `Integer.parseInt` reads back the decimal form of every non-negative `int` |
| Parsing.OneDigitLiteralHasNoValue | src/parser/Parser.java:431-434 | A one-digit literal reaches the parser with empty data, on which `Integer.parseInt` throws |
| Parsing.BinaryOp | src/parser/Parser.java:590-726 | Each operator token builds the operator of its precedence level |
| Parsing.LeftSpineTrans | src/parser/Parser.java:590-598 | Operators stacked by a left-associative loop stay on the left spine of the same operand |
| Parsing.SplitAtEof | src/parser/Parser.java:87-92 | A token stream splits into the tokens before EOF and the EOF token |
| Parsing.Parser.constructor | src/parser/Parser.java:27-36 | The parser starts at the first token with an empty queue and no errors |
| Parsing.Parser.NextToken | src/parser/Parser.java:87-92 | The queue's head is taken when there is one, else the next token of the stream; the position advances by one |
| Parsing.Parser.LookAhead | src/parser/Parser.java:67-82 | The i-th token ahead is returned and the queue is filled to at least i tokens, consuming nothing |
| Parsing.Parser.Fill | src/parser/Parser.java:69-70 | The queue is extended, in stream order, until it holds i tokens |
| Parsing.Parser.Error | src/parser/Parser.java:45-62 | An error is counted unless one was already reported at this very token |
| Parsing.Parser.Expect | src/parser/Parser.java:98-109 | The expected token is consumed and returned; any other is reported and consumed not at all |
| Parsing.Parser.ParseProgram | src/parser/Parser.java:121-128 | The error count never falls; with no error, the program and where it stops are the parse `ProgramAt` gives for the whole stream: includes, structs, globals and functions in that order, then EOF; no expression in it is null; starting with no error, it ends with no error and no crash whenever `ProgramAt` accepts the tokens |
| Parsing.Parser.ParseDeclarations | src/parser/Parser.java:121-125 | With no error, the three lists and where they stop are the parse `DeclarationsAt` gives: `IncludesAt`, then `StructDeclsAt`, `VarDeclsAt` and `FunDeclsAt`; no function body holds a null expression; starting with no error, it ends with no error and no crash whenever `DeclarationsAt` accepts the tokens |
| Parsing.Parser.ParseIncludes | src/parser/Parser.java:131-138 | Includes are consumed until the token is not `#include`; with no error, it stops where `IncludesAt` says, and starting with no error, it ends with no error whenever `IncludesAt` accepts the tokens |
| Parsing.Parser.ParseStructDeclRep | src/parser/Parser.java:140-147 | Struct declarations are read until the token is not `struct`; with no error, the list and where it stops are the parse `StructDeclsAt` gives; starting with no error, it ends with no error and no crash whenever `StructDeclsAt` accepts the tokens |
| Parsing.Parser.ParseStructDecl | src/parser/Parser.java:149-162 | A struct declaration consumes input and, unless the parser crashed, has at least one member; with no error, it and where it stops are the parse `StructDeclAt` gives, keeping the `StructType` object the name was read into; starting with no error, it ends with no error and no crash whenever `StructDeclAt` accepts the tokens |
| Parsing.Parser.ParseVarDeclRep | src/parser/Parser.java:164-186 | Declarations are read until the token starts no type, or a `(` two tokens on makes it a function; with no error, the list and where it stops are the parse `VarDeclsAt` gives; starting with no error, it ends with no error and no crash whenever `VarDeclsAt` accepts the tokens |
| Parsing.Parser.ParseVarDecl | src/parser/Parser.java:188-205 | With no error, the declaration and where it stops are the parse `VarDeclAt` gives: a trailing `[n]` wraps the type in `ArrayType` of length `n`; a declaration that starts with a type consumes input; starting with no error, it ends with no error and no crash whenever `VarDeclAt` accepts the tokens |
| Parsing.Parser.ParseArrayDecl | src/parser/Parser.java:207-217 | With no error, the length is the `INT_LITERAL`'s value and the position is the one `ArrayDeclAt` gives; a crash before it gives 0, and reading never moves back or lowers the error count; starting with no error, `[`, an INT_LITERAL that `Integer.valueOf` reads and `]` end with no error and no crash |
| Parsing.Parser.ParseFunDeclRep | src/parser/Parser.java:219-229 | Functions are read until the token starts no type; with no error, the list and where it stops are the parse `FunDeclsAt` gives, and no body holds a null expression; starting with no error, it ends with no error and no crash whenever `FunDeclsAt` accepts the tokens |
| Parsing.Parser.ParseFunDecl | src/parser/Parser.java:231-241 | A function declaration consumes input; with no error, it and where it stops are the parse `FunDeclAt` gives, the header then `BlockAt`, and its body holds no null expression; starting with no error, it ends with no error and no crash whenever `FunDeclAt` accepts the tokens |
| Parsing.Parser.ParseBaseType | src/parser/Parser.java:243-260 | `int`, `char` and `void` give their base types, and the result is never a pointer type; with no error, the result and where it stops are the parse `BaseTypeAt` gives; starting with no error, it ends with no error and no crash whenever `BaseTypeAt` accepts the tokens |
| Parsing.Parser.ParseType | src/parser/Parser.java:243-267 | The type stops at the first token that is not `*`, and each of its pointer levels was read from a `*` token; with no error, the result and where it stops are the parse `TypeAt` gives; starting with no error, it ends with no error and no crash whenever `TypeAt` accepts the tokens |
| Parsing.Parser.ParsePointers | src/parser/Parser.java:261-266 | Each `*` consumed adds exactly one pointer level to the same base, and the loop stops at the first token that is not `*`; it reports no error |
| Parsing.Parser.ParseStructType | src/parser/Parser.java:269-275 | `struct name` gives a struct type carrying the name; with no error, exactly `struct` and an identifier were consumed and the type is the new object at the next allocation site; starting with no error, `struct` followed by an identifier ends with no error |
| Parsing.Parser.ParseParams | src/parser/Parser.java:277-288 | With no error, the parameters and where they stop are the parse `ParamsAt` gives: none unless a type starts, else a type and a name, then `, type name` for each comma; starting with no error, it ends with no error and no crash whenever `ParamsAt` accepts the tokens |
| Parsing.Parser.ParseExtraParam | src/parser/Parser.java:290-302 | Parameters are read until the token is not a comma; with no error, the result and where it stops are the parse `ExtraParamsAt` gives; starting with no error, it ends with no error and no crash whenever `ExtraParamsAt` accepts the tokens |
| Parsing.Parser.ParseBlock | src/parser/Parser.java:394-401 | A block consumes its `{`; with no error, it and where it stops are the parse `BlockAt` gives, `{`, `VarDeclsAt`, `StmtsAt`, `}`, and it holds no null expression; starting with no error, it ends with no error and no crash whenever `BlockAt` accepts the tokens |
| Parsing.Parser.ParseStmtRep | src/parser/Parser.java:304-320 | Statements are read until `}` or EOF; with no error, the list and where it stops are the parse `StmtsAt` gives, and none holds a null expression; starting with no error, it ends with no error and no crash whenever `StmtsAt` accepts the tokens |
| Parsing.Parser.ParseStmt | src/parser/Parser.java:322-362 | A statement consumes input; with no error, it and where it stops are the parse `StmtAt` gives, whose first token picks a block, `while`, `if`, `return` or an expression statement; it holds no null expression; starting with no error, it ends with no error and no crash whenever `StmtAt` accepts the tokens |
| Parsing.Parser.ParseMaybeAssign | src/parser/Parser.java:364-373 | Without `=`, nothing is read; a failed expression reads as no assignment; with no error, the result and where it stops are the parse `MaybeAssignAt` gives; starting with no error, it ends with no error and no crash whenever `MaybeAssignAt` accepts the tokens |
| Parsing.Parser.ParseMaybeElse | src/parser/Parser.java:375-382 | Without `else`, nothing is read; after `else`, there is a branch; with no error, the result and where it stops are the parse `MaybeElseAt` gives; starting with no error, it ends with no error and no crash whenever `MaybeElseAt` accepts the tokens |
| Parsing.Parser.ParseMaybeExp | src/parser/Parser.java:384-392 | At `;`, nothing is read; otherwise an expression, which is not null when there is no error; with no error, the result and where it stops are the parse `MaybeExpAt` gives; starting with no error, it ends with no error and no crash whenever `MaybeExpAt` accepts the tokens |
| Parsing.Parser.ParseStructBody | src/parser/Parser.java:151-161 | At least one member; with no error, the members and where they stop are the parse `StructBodyAt` gives: `{`, a declaration, `VarDeclsAt`, `}`, `;`; starting with no error, it ends with no error and no crash whenever `StructBodyAt` accepts the tokens |
| Parsing.Parser.ParseStructMembers | src/parser/Parser.java:156-159 | With no error, the further members are the parse `VarDeclsAt` gives, and `}` and `;` follow them, consumed; starting with no error, it ends with no error and no crash whenever `VarDeclsAt` accepts the tokens and `}` `;` follow the declarations |
| Parsing.Parser.ParseMoreVarDecls | src/parser/Parser.java:176-182 | When a type starts and no `(` comes two tokens on, a declaration and the rest; with no error, the list and where it stops are the parse `VarDeclsAt` gives; starting with no error, it ends with no error and no crash whenever `VarDeclsAt` accepts the tokens |
| Parsing.Parser.ParseMoreFunDecls | src/parser/Parser.java:223-226 | When a type starts, a function and the rest; with no error, the list and where it stops are the parse `FunDeclsAt` gives, and no body holds a null expression; starting with no error, it ends with no error and no crash whenever `FunDeclsAt` accepts the tokens |
| Parsing.Parser.ParseFunHeader | src/parser/Parser.java:233-238 | With no error, the type, name and parameters and where they stop are the parse `FunHeaderAt` gives; starting with no error, it ends with no error and no crash whenever `FunHeaderAt` accepts the tokens |
| Parsing.Parser.ParseNameAndParams | src/parser/Parser.java:234-238 | With no error, the name is the identifier's text, and the parameters and where they stop are the parse `ParamListAt` gives after it; starting with no error, an identifier followed by a list `ParamListAt` accepts ends with no error and no crash |
| Parsing.Parser.ParseParamList | src/parser/Parser.java:236-238 | With no error, the parameters and where they stop are the parse `ParamListAt` gives: `(`, `ParamsAt`, `)`; starting with no error, it ends with no error and no crash whenever `ParamListAt` accepts the tokens |
| Parsing.Parser.ParseMoreStmts | src/parser/Parser.java:315-318 | Before anything but `}` or EOF, a statement and the rest; with no error, the list and where it stops are the parse `StmtsAt` gives, and none holds a null expression; starting with no error, it ends with no error and no crash whenever `StmtsAt` accepts the tokens |
| Parsing.Parser.ParseWhile | src/parser/Parser.java:331-337 | `while` consumes input; with no error, the loop and where it stops are the parse `WhileAt` gives, the condition then the body, and it holds no null expression; starting with no error, it ends with no error and no crash whenever `WhileAt` accepts the tokens |
| Parsing.Parser.ParseIf | src/parser/Parser.java:338-345 | `if` consumes input; with no error, the statement and where it stops are the parse `IfAt` gives, the condition, the then-branch and `MaybeElseAt`, and it holds no null expression; starting with no error, it ends with no error and no crash whenever `IfAt` accepts the tokens |
| Parsing.Parser.ParseCondition | src/parser/Parser.java:333-335 | With no error, the condition and where it stops are the parse `CondAt` gives, `(` exp `)`, and it holds no null; starting with no error, it ends with no error and no crash whenever `CondAt` accepts the tokens |
| Parsing.Parser.ParseReturn | src/parser/Parser.java:346-349 | `return` consumes input; with no error, the statement and where it stops are the parse `ReturnAt` gives, `MaybeExpAt` then `;`; starting with no error, it ends with no error and no crash whenever `ReturnAt` accepts the tokens |
| Parsing.Parser.ParseExpStmt | src/parser/Parser.java:350-359 | With no error, the statement and where it stops are the parse `ExpStmtAt` gives: an assignment when `=` follows the expression, else an expression statement, then `;`; starting with no error, it ends with no error and no crash whenever `ExpStmtAt` accepts the tokens |
| Parsing.Parser.ParseExp | src/parser/Parser.java:403-413 | An expression consumes input; with no error, it holds no null, and the result and where it stops are the level-0 parse `ExprAt` gives; starting with no error, it ends with no error and no crash whenever `ExprAt` accepts the tokens |
| Parsing.Parser.ParseBinOp | src/parser/Parser.java:576-579 | With no error, the expression is the level-0 parse `ExprAt` gives, whose top operator binds at its level or tighter (`ExprTop`); it consumes input and holds no null; starting with no error, it ends with no error and no crash whenever `ExprAt` accepts the tokens |
| Parsing.Parser.ParseOr | src/parser/Parser.java:581-588 | With no error, the expression is the level-0 parse `ExprAt` gives: operands of level 1 or tighter joined by `\|\|`, left to right, so its top binds at level 0 or tighter (`ExprTop`); it stops at the first token that is not `\|\|`; starting with no error, it ends with no error and no crash whenever `ExprAt` accepts the tokens |
| Parsing.Parser.ParseOrRep | src/parser/Parser.java:590-598 | Each `\|\|` stacks its operator on the left spine; with no error, the result is the parse `RepAt` gives at level 0, each right operand a parse of level 1 or tighter; starting with no error, it ends with no error and no crash whenever `RepAt` accepts the tokens |
| Parsing.Parser.ParseAnd | src/parser/Parser.java:600-607 | With no error, the expression is the level-1 parse `ExprAt` gives: operands of level 2 or tighter joined by `&&`, left to right, so its top binds at level 1 or tighter (`ExprTop`); it stops at the first token that is not `&&`; starting with no error, it ends with no error and no crash whenever `ExprAt` accepts the tokens |
| Parsing.Parser.ParseAndRep | src/parser/Parser.java:609-617 | Each `&&` stacks its operator on the left spine; with no error, the result is the parse `RepAt` gives at level 1, each right operand a parse of level 2 or tighter; starting with no error, it ends with no error and no crash whenever `RepAt` accepts the tokens |
| Parsing.Parser.ParseEquality | src/parser/Parser.java:619-626 | With no error, the expression is the level-2 parse `ExprAt` gives: operands of level 3 or tighter joined by `==` or `!=`, left to right, so its top binds at level 2 or tighter (`ExprTop`); it stops at the first token that is not `==` or `!=`; starting with no error, it ends with no error and no crash whenever `ExprAt` accepts the tokens |
| Parsing.Parser.ParseEqualityRep | src/parser/Parser.java:628-641 | Each `==` or `!=` stacks its operator on the left spine; with no error, the result is the parse `RepAt` gives at level 2, each right operand a parse of level 3 or tighter; starting with no error, it ends with no error and no crash whenever `RepAt` accepts the tokens |
| Parsing.Parser.ParseComparision | src/parser/Parser.java:643-650 | With no error, the expression is the level-3 parse `ExprAt` gives: operands of level 4 or tighter joined by a comparison, left to right, so its top binds at level 3 or tighter (`ExprTop`); it stops at the first token that is not a comparison; starting with no error, it ends with no error and no crash whenever `ExprAt` accepts the tokens |
| Parsing.Parser.ParseComparisionRep | src/parser/Parser.java:652-675 | Each comparison stacks its operator on the left spine; with no error, the result is the parse `RepAt` gives at level 3, each right operand a parse of level 4 or tighter; starting with no error, it ends with no error and no crash whenever `RepAt` accepts the tokens |
| Parsing.Parser.ParseAddition | src/parser/Parser.java:677-682 | With no error, the expression is the level-4 parse `ExprAt` gives: operands of level 5 or tighter joined by `+` or `-`, left to right, so its top binds at level 4 or tighter (`ExprTop`); it stops at the first token that is not `+` or `-`; starting with no error, it ends with no error and no crash whenever `ExprAt` accepts the tokens |
| Parsing.Parser.ParseAdditionRep | src/parser/Parser.java:684-697 | Each `+` or `-` stacks its operator on the left spine; with no error, the result is the parse `RepAt` gives at level 4, each right operand a parse of level 5 or tighter; starting with no error, it ends with no error and no crash whenever `RepAt` accepts the tokens |
| Parsing.Parser.ParseMultiplication | src/parser/Parser.java:699-705 | With no error, the expression is the level-5 parse `ExprAt` gives: operands of level 6 or tighter joined by `*`, `/` or `%`, left to right, so its top binds at level 5 or tighter (`ExprTop`); it stops at the first token that is not `*`, `/` or `%`; starting with no error, it ends with no error and no crash whenever `ExprAt` accepts the tokens |
| Parsing.Parser.ParseMultiplicationRep | src/parser/Parser.java:707-726 | Each `*`, `/` or `%` stacks its operator on the left spine; with no error, the result is the parse `RepAt` gives at level 5, each right operand a parse of level 6 or tighter; starting with no error, it ends with no error and no crash whenever `RepAt` accepts the tokens |
| Parsing.Parser.ParseUnary | src/parser/Parser.java:728-736 | `- e` becomes `0 - e`; with no error, the result and where it stops are the parse `UnaryAt` gives; starting with no error, it ends with no error and no crash whenever `UnaryAt` accepts the tokens |
| Parsing.Parser.ParseNegation | src/parser/Parser.java:730-733 | After `-`, the result is `0 - e` with `e` the unary operand; with no error, `e` and where it stops are the parse `UnaryAt` gives one token further on; starting with no error, it ends with no error and no crash whenever `UnaryAt` accepts the tokens after `-` |
| Parsing.Parser.ParseNoOpExp | src/parser/Parser.java:415-464 | With no error, the operand is the parse `OperandAt` gives: the literal, name, call, `*e`, `sizeof`, cast or bracket its first token selects, then at most one access; starting with no error, it ends with no error and no crash whenever `OperandAt` accepts the tokens |
| Parsing.Parser.ParseValueAt | src/parser/Parser.java:466-470 | `*e` is a value-at expression; with no error, the result and where it stops are the parse `ValueAtAt` gives; starting with no error, it ends with no error and no crash whenever `ValueAtAt` accepts the tokens |
| Parsing.Parser.ParseIdentOrFunCall | src/parser/Parser.java:472-481 | An identifier is a call when `(` follows, else a variable, carrying the identifier's text; with no error, the result and where it stops are the parse `IdentOrCallAt` gives; starting with no error, it ends with no error and no crash whenever `IdentOrCallAt` accepts the tokens |
| Parsing.Parser.ParseFunCall | src/parser/Parser.java:483-489 | With no error, no argument is null, and the result and where it stops are the parse `ArgsAt` gives; starting with no error, it ends with no error and no crash whenever `ArgsAt` accepts the tokens |
| Parsing.Parser.ParseMaybeArgs | src/parser/Parser.java:491-500 | At `)`, there are no arguments and nothing is read; with no error, the result and where it stops are the parse `MaybeArgsAt` gives; starting with no error, it ends with no error and no crash whenever `MaybeArgsAt` accepts the tokens |
| Parsing.Parser.ParseExtraArg | src/parser/Parser.java:502-511 | Arguments are read until the token is not a comma; with no error, the result and where it stops are the parse `ExtraArgsAt` gives; starting with no error, it ends with no error and no crash whenever `ExtraArgsAt` accepts the tokens |
| Parsing.Parser.ParseSizeOf | src/parser/Parser.java:513-520 | `sizeof(type)` is a size-of expression with no annotation yet; with no error, the result and where it stops are the parse `SizeOfAt` gives; starting with no error, it ends with no error and no crash whenever `SizeOfAt` accepts the tokens |
| Parsing.Parser.ParseBracketOrTypeCast | src/parser/Parser.java:522-530 | `(` starts a cast when a type follows, else a bracketed expression; with no error, the result and where it stops are the parse `BracketOrCastAt` gives; starting with no error, it ends with no error and no crash whenever `BracketOrCastAt` accepts the tokens |
| Parsing.Parser.ParseBrackets | src/parser/Parser.java:532-537 | With no error, the bracketed expression holds no null, and the result and where it stops are the parse `BracketsAt` gives; starting with no error, it ends with no error and no crash whenever `BracketsAt` accepts the tokens |
| Parsing.Parser.ParseTypeCast | src/parser/Parser.java:539-545 | `(type) e` is a typecast with no annotation yet; with no error, the result and where it stops are the parse `CastAt` gives; starting with no error, it ends with no error and no crash whenever `CastAt` accepts the tokens |
| Parsing.Parser.ParseClosedType | src/parser/Parser.java:541-542 | With no error, the type is the one `TypeAt` gives and a `)` follows it, consumed: the end of a cast's `(type)` and of `sizeof(type)`; starting with no error, a type `TypeAt` accepts followed by `)` ends with no error and no crash |
| Parsing.Parser.ParseCastOperand | src/parser/Parser.java:543-544 | After the type and `)`, the converted expression; with no error, the typecast and where it stops are the parse `CastAt` gives; starting with no error, it ends with no error and no crash whenever `CastAt` accepts the cast |
| Parsing.Parser.ParseNextParam | src/parser/Parser.java:294-298 | After a comma, one parameter; with no error, it is the one `ParamAt` gives from the token after the comma; starting with no error, it ends with no error and no crash whenever `ParamAt` accepts the tokens after the comma |
| Parsing.Parser.ParseMoreParams | src/parser/Parser.java:293-299 | At a comma, a parameter and then the rest; with no error, the result and where it stops are the parse `ExtraParamsAt` gives; starting with no error, it ends with no error and no crash whenever `ExtraParamsAt` accepts the tokens |
| Parsing.Parser.ParseMoreArgs | src/parser/Parser.java:506-509 | At a comma, an expression and then the rest; with no error, the result and where it stops are the parse `ExtraArgsAt` gives; starting with no error, it ends with no error and no crash whenever `ExtraArgsAt` accepts the tokens |
| Parsing.Parser.ParseArrayOrFieldAccess | src/parser/Parser.java:547-558 | At most one `[e]` or `.name` is applied to the operand; with no error, the result and where it stops are the parse `AccessAt` gives; starting with no error, it ends with no error and no crash whenever `AccessAt` accepts the tokens |
| Parsing.Parser.ParseArrayAccess | src/parser/Parser.java:560-566 | `[e]` builds an array access on the operand; with no error, the result and where it stops are the parse `ArrayAccessAt` gives; starting with no error, it ends with no error and no crash whenever `ArrayAccessAt` accepts the tokens |
| Parsing.Parser.ParseIndex | src/parser/Parser.java:562-563 | With no error, the index and where it stops are the expression parse `ExprAt` gives, followed by `]`; starting with no error, an expression `ExprAt` accepts followed by `]` ends with no error and no crash |
| Parsing.Parser.ParseFieldAccess | src/parser/Parser.java:568-574 | `.name` builds a field access on the operand; with no error, the result and where it stops are the parse `FieldAccessAt` gives; starting with no error, it ends with no error and no crash whenever `FieldAccessAt` accepts the tokens |
| Parsing.LexSplits | src/parser/Parser.java:87-92 | A token stream is the tokens before EOF, none of them EOF, then EOF |
| Parsing.Parser.BaseTypeAt | src/parser/Parser.java:243-260 | The grammar of a base type, `int`, `char`, `void` or `struct name`; a parse consumes a token or more |
| Parsing.Parser.PointersAt | src/parser/Parser.java:261-266 | The grammar of the `*` loop: it always succeeds and never moves back |
| Parsing.Parser.TypeAt | src/parser/Parser.java:243-267 | The grammar of `parseType()`: a base type then its stars; a parse consumes a token or more |
| Parsing.Parser.ArrayDeclAt | src/parser/Parser.java:207-217 | The grammar of `[` INT_LITERAL `]`: a parse ends exactly three tokens on |
| Parsing.Parser.VarDeclAt | src/parser/Parser.java:188-205 | The grammar of `parseVarDecl()`; a parse consumes a token or more |
| Parsing.Parser.DeclaratorAt | src/parser/Parser.java:191-201 | The grammar of a declaration after its type: a name and `;`, or a name, an array declaration and `;` |
| Parsing.Parser.ArraySuffixAt | src/parser/Parser.java:195-198 | The grammar of the array branch, which wraps the type in an array type of the literal's length |
| Parsing.Parser.ParamsAt | src/parser/Parser.java:277-288 | The grammar of `parseParams()`: nothing unless a type starts; a parse never moves back |
| Parsing.Parser.ParamAt | src/parser/Parser.java:281-284 | The grammar of one parameter, a type and a name; a parse consumes a token or more |
| Parsing.Parser.ExtraParamsAt | src/parser/Parser.java:290-302 | The grammar of `, param` repeated; a parse never moves back |
| Parsing.Parser.ExprAt | src/parser/Parser.java:576-736 | The grammar of the expression levels from `parseOr()` down to `parseUnary()`; a parse consumes a token or more |
| Parsing.Parser.RepAt | src/parser/Parser.java:590-726 | The grammar of the `*Rep` loops: operators of one level stacked on the left operand; a parse never moves back |
| Parsing.Parser.UnaryAt | src/parser/Parser.java:728-736 | The grammar of `parseUnary()`: `- e` or an operand |
| Parsing.Parser.OperandAt | src/parser/Parser.java:415-464 | The grammar of `parseNoOpExp()`: a primary then at most one access |
| Parsing.Parser.PrimaryAt | src/parser/Parser.java:430-451 | The grammar of the branches of `parseNoOpExp()` by their first token |
| Parsing.Parser.IdentOrCallAt | src/parser/Parser.java:472-481 | The grammar of `parseIdentOrFunCall()` |
| Parsing.Parser.ValueAtAt | src/parser/Parser.java:466-470 | The grammar of `*e` |
| Parsing.Parser.SizeOfAt | src/parser/Parser.java:513-520 | The grammar of `sizeof ( type )` |
| Parsing.Parser.BracketOrCastAt | src/parser/Parser.java:522-530 | The grammar of `(`: a cast when a type follows, else a bracketed expression |
| Parsing.Parser.CastAt | src/parser/Parser.java:539-545 | The grammar of `type ) e` after `(` |
| Parsing.Parser.BracketsAt | src/parser/Parser.java:532-537 | The grammar of `e )` after `(`, with no node of its own |
| Parsing.Parser.AccessAt | src/parser/Parser.java:547-558 | The grammar of one `[e]` or `.name`: the result is the operand itself, an array access or a field access |
| Parsing.Parser.FieldAccessAt | src/parser/Parser.java:568-574 | The grammar of `.name` |
| Parsing.Parser.ArrayAccessAt | src/parser/Parser.java:560-566 | The grammar of `[ e ]` |
| Parsing.Parser.ArgsAt | src/parser/Parser.java:483-489 | The grammar of `( args )` |
| Parsing.Parser.MaybeArgsAt | src/parser/Parser.java:491-500 | The grammar of the argument list: nothing before `)` |
| Parsing.Parser.ExtraArgsAt | src/parser/Parser.java:502-511 | The grammar of `, e` repeated |
| Parsing.Parser.VarDeclsAt | src/parser/Parser.java:164-186 | The grammar of `parseVarDeclRep()`: declarations while a type starts and no `(` comes two tokens on; a parse never moves back |
| Parsing.Parser.CondAt | src/parser/Parser.java:333-335 | The grammar of `( exp )`; a parse consumes a token or more |
| Parsing.Parser.MaybeAssignAt | src/parser/Parser.java:364-373 | The grammar of `= exp` or nothing; a parse never moves back |
| Parsing.Parser.MaybeExpAt | src/parser/Parser.java:384-392 | The grammar of nothing before `;`, else an expression; a parse never moves back |
| Parsing.Parser.BlockAt | src/parser/Parser.java:394-401 | The grammar of `{` declarations statements `}`; a parse consumes a token or more |
| Parsing.Parser.StmtsAt | src/parser/Parser.java:304-320 | The grammar of statements until `}` or EOF; a parse never moves back |
| Parsing.Parser.StmtAt | src/parser/Parser.java:322-362 | The grammar of `parseStmt()`, dispatched on the first token; a parse consumes a token or more |
| Parsing.Parser.WhileAt | src/parser/Parser.java:331-337 | The grammar of `while ( exp ) stmt`; a parse consumes a token or more |
| Parsing.Parser.IfAt | src/parser/Parser.java:338-345 | The grammar of `if ( exp ) stmt` and an optional else-branch; a parse consumes a token or more |
| Parsing.Parser.ReturnAt | src/parser/Parser.java:346-349 | The grammar of `return`, an optional value, `;`; a parse consumes a token or more |
| Parsing.Parser.ExpStmtAt | src/parser/Parser.java:350-359 | The grammar of an expression, an optional `= exp`, `;`; a parse consumes a token or more |
| Parsing.Parser.MaybeElseAt | src/parser/Parser.java:375-382 | The grammar of `else stmt` or nothing; a parse never moves back |
| Parsing.Parser.FunHeaderAt | src/parser/Parser.java:231-238 | The grammar of a type, a name, `(` parameters `)`; a parse consumes a token or more |
| Parsing.Parser.ParamListAt | src/parser/Parser.java:236-238 | The grammar of `(` parameters `)`; a parse consumes a token or more |
| Parsing.Parser.FunDeclAt | src/parser/Parser.java:231-241 | The grammar of `parseFunDecl()`, a header then a block; a parse consumes a token or more |
| Parsing.Parser.FunDeclsAt | src/parser/Parser.java:219-229 | The grammar of `parseFunDeclRep()`: function declarations while a type starts; a parse never moves back |
| Parsing.Parser.StructDeclAt | src/parser/Parser.java:149-162 | The grammar of `struct name` and a body, the declaration keeping the struct type; a parse consumes a token or more |
| Parsing.Parser.StructBodyAt | src/parser/Parser.java:151-161 | The grammar of `{` one or more declarations `}` `;`; a parse consumes a token or more and has at least one member |
| Parsing.Parser.StructDeclsAt | src/parser/Parser.java:140-147 | The grammar of `parseStructDeclRep()`: struct declarations while the token is `struct`; a parse never moves back |
| Parsing.Parser.IncludesAt | src/parser/Parser.java:131-138 | The grammar of `#include` and a string literal, repeated; a parse never moves back |
| Parsing.Parser.DeclarationsAt | src/parser/Parser.java:121-125 | The grammar of includes, structs, globals and functions in that order; a parse never moves back |
| Parsing.Parser.ProgramAt | src/parser/Parser.java:121-128 | The grammar of a whole program: the declarations then EOF, which a parse ends on |
| Parsing.Parser.ExprStops | src/parser/Parser.java:576-726 | Maximal munch: a parse of a level stops only at a token that is no operator of that level or a tighter one |
| Parsing.Parser.RepStops | src/parser/Parser.java:590-726 | A `*Rep` loop stops only at a token that is no operator of its level or a tighter one |
| Parsing.Parser.RepSpine | src/parser/Parser.java:590-726 | Left associativity: a `*Rep` loop stacks operators of its own level, and only those, on the left spine of its operand |
| Parsing.Parser.RepRights | src/parser/Parser.java:590-726 | Each right operand a `*Rep` loop builds is a parse of the next tighter level |
| Parsing.Parser.ExprTop | src/parser/Parser.java:576-736 | Precedence: the top operator of a parse of a level binds at that level or tighter, unless the parse began with `(` or `-` |
| Parsing.Parser.OperandTop | src/parser/Parser.java:415-464 | An operand is a binary operation only when it starts with `(` |
| Parsing.Parser.Climb | src/parser/Parser.java:576-726 | A parse that stops at a looser operator is the same parse at every looser level |
| Parsing.Parser.NameAt | src/parser/Parser.java:472-481 | A name that no `(`, `[` or `.` follows parses as a variable |
| Parsing.Parser.SumOfProduct | src/parser/Parser.java:677-726 | `a + b * c` parses as `a + (b * c)` |
| Parsing.Parser.DifferenceOfDifference | src/parser/Parser.java:684-697 | `a - b - c` parses as `(a - b) - c` |
| Parsing.Parser.IntArrayDecl | src/parser/Parser.java:188-217 | `int a[n];` declares `a` with a new array type of `n` over `int` |
| Parsing.Parser.IfWithoutElseStops | src/parser/Parser.java:338-382 | An `if` parsed with no else-branch ends at a token that is not `else` |
| Parsing.Parser.OnlyIfParsesIf | src/parser/Parser.java:329-345 | A statement parses as an `if` only when it starts with `if`, and then it is the `if` parse |
| Parsing.Parser.DanglingElse | src/parser/Parser.java:338-382 | The dangling else binds to the nearest `if`: an outer `if` whose then-branch is an `if` with no else-branch has none either |
| Parsing.Parser.ParseDeclarator | src/parser/Parser.java:191-201 | With no error, the declaration is the one `DeclaratorAt` gives; starting with no error, it ends with no error and no crash whenever `DeclaratorAt` accepts the tokens |
| Parsing.Parser.ParseArraySuffix | src/parser/Parser.java:195-198 | With no error, the declaration is the one `ArraySuffixAt` gives; starting with no error, it ends with no error and no crash whenever `ArraySuffixAt` accepts the tokens |
| Parsing.Parser.ParseArrayLength | src/parser/Parser.java:207-217 | The literal's value, 0 when the token is not a literal, or a crash when `Integer.valueOf` throws; starting with no error, a literal that `Integer.valueOf` reads followed by `]` ends with no error and no crash |
| Parsing.Parser.ParseParam | src/parser/Parser.java:281-284 | With no error, the parameter is the one `ParamAt` gives; starting with no error, it ends with no error and no crash whenever `ParamAt` accepts the tokens |
| Parsing.Parser.ParsePrimary | src/parser/Parser.java:430-451 | An INT_LITERAL crashes exactly when `Integer.parseInt` throws, a CHAR_LITERAL exactly when it is empty; with no error, the parse is `PrimaryAt`; starting with no error, it ends with no error and no crash whenever `PrimaryAt` accepts the tokens |
| Parsing.Parser.FreshSite | src/parser/Parser.java:198 | A new object takes the next allocation site and changes nothing else |
| AstPrinter.PrintVarDecls | src/ast/ASTPrinter.java:77-83 | One `VarDecl(type,name)` per declaration, in order |
| AstPrinter.PrintStructs | src/ast/ASTPrinter.java:56-60 | One text per struct declaration |
| AstPrinter.PrintFunDecls | src/ast/ASTPrinter.java:66-70 | One text per function declaration |
| AstPrinter.DelimitCommaIsCommaJoin | src/ast/ASTPrinter.java:55-70 | Once the delimiter is a comma, every item is preceded by a comma |
| AstPrinter.DelimitIsJoin | src/ast/ASTPrinter.java:17-33 | A delimiter loop that starts empty writes the items comma-separated |
| AstPrinter.DelimitTwice | src/ast/ASTPrinter.java:17-33 | Two loops sharing the delimiter write what one loop over both lists writes |
| AstPrinter.DelimitThrice | src/ast/ASTPrinter.java:55-70 | The three loops of `visitProgram` write the three lists joined by commas |
| AstPrinter.ProgramIsJoin | src/ast/ASTPrinter.java:53-74 | `Program(` then the structs, globals and functions, comma-separated with no leading or trailing comma, then `)` |
| AstPrinter.BlockIsJoin | src/ast/ASTPrinter.java:14-36 | `Block(` then the declarations and the statements, comma-separated, then `)` |
| AstPrinter.TerminateThenItem | src/ast/ASTPrinter.java:43-47 | Items each followed by a comma, then one more item, are the items joined by commas |
| AstPrinter.FunDeclIsJoin | src/ast/ASTPrinter.java:39-50 | `FunDecl(type,name,` then the parameters and the block, comma-separated, then `)` |
| AstPrinter.ReturnPrintsLeadingComma | src/ast/ASTPrinter.java:268-275 | A return with a value prints as `Return(,e)`, and one without as `Return()` |
| AstPrinter.SizeOfPrintsAnnotation | src/ast/ASTPrinter.java:208-213 | `sizeof` prints its `type` annotation, not the type it measures, so a checked `sizeof(t)` prints `SizeOfExpr(INT)` |
| Scopes.FoundIffBound | src/sem/Scope.java:19-30 | A name is found exactly when some scope of the chain binds it |
| Scopes.Bind | src/sem/Scope.java:32-37 | Binding changes only the innermost table, and reports whether the name was already in it |
| Scopes.FindInnermost | src/sem/Scope.java:19-23 | The innermost binding of a name hides every outer one |
| Scopes.FindOuter | src/sem/Scope.java:21 | A name the innermost table does not bind is looked up in the scopes around it |
| Scopes.FindAfterBind | src/sem/Scope.java:32-37 | After a bind, the name finds the new symbol and every other name finds what it found before |
| Scopes.Scope.constructor | src/sem/Scope.java:10-17 | A new scope has an empty table inside the chain of its outer scope |
| Scopes.Scope.LookupIsFind | src/sem/Scope.java:19-30 | `lookup` returns the innermost binding of the chain |
| Scopes.Scope.EmptyRootFindsNothing | src/sem/Scope.java:15-17 | An empty scope without an outer one finds nothing |
| Scopes.Scope.Put | src/sem/Scope.java:32-37 | A duplicate is reported exactly when the name is in this table; the name is bound anyway, and no outer scope changes |
| NameAnalysis.ResolveArgs | src/sem/NameAnalysisVisitor.java:197-199 | One analysed argument per argument |
| NameAnalysis.DeclareVars | src/sem/NameAnalysisVisitor.java:111-115 | Declaring variables keeps the number of scopes in the chain |
| NameAnalysis.ResolveStmts | src/sem/NameAnalysisVisitor.java:280-282 | One analysed statement per statement |
| NameAnalysis.ResolveBlockSteps | src/sem/NameAnalysisVisitor.java:274-284 | A block is its declarations in a new scope, then its statements |
| NameAnalysis.ResolveFunDecls | src/sem/NameAnalysisVisitor.java:62-64 | Analysing the functions keeps the number of scopes in the chain |
| NameAnalysis.DeclareStructs | src/sem/NameAnalysisVisitor.java:93-108 | Declaring the structs' members keeps the number of scopes in the chain |
| NameAnalysis.DeclareFuns | src/sem/NameAnalysisVisitor.java:36-60 | Declaring the function signatures keeps the number of scopes in the chain |
| NameAnalysis.VarExprResolution | src/sem/NameAnalysisVisitor.java:147-171 | A variable links to its innermost declaration; an unbound name or a function name is one error |
| NameAnalysis.CallResolution | src/sem/NameAnalysisVisitor.java:174-200 | A call links to the function its name finds, and its arguments are analysed either way |
| NameAnalysis.DeclareVarsFind | src/sem/NameAnalysisVisitor.java:111-115 | A name finds its last declaration in the list if it has one, else what it found before; outer tables are untouched |
| NameAnalysis.LastIndex | src/sem/NameAnalysisVisitor.java:111-115 | The last declaration of a name in a list |
| NameAnalysis.DistinctDeclarationsNoError | src/sem/NameAnalysisVisitor.java:274-284 | Declarations with distinct names report no error in a fresh scope, whatever the outer scopes bind |
| NameAnalysis.RecursionResolves | src/sem/NameAnalysisVisitor.java:118-129 | In a function's body, a call of the function itself finds it, unless a parameter has its name |
| NameAnalysis.DeclareVarsAppend | src/sem/NameAnalysisVisitor.java:111-115 | Declaring two lists in turn is declaring their concatenation |
| NameAnalysis.EveryLaterStructIsARedefinition | src/sem/NameAnalysisVisitor.java:93-108 | Every struct after the first is one error, whatever its name |
| NameAnalysis.TwoStructsOneError | src/sem/NameAnalysisVisitor.java:102 | Two structs with different names and no members still give an error |
| NameAnalysis.NameAnalyser.constructor | src/sem/NameAnalysisVisitor.java:22-34 | The analyser starts with no errors and no structs seen |
| NameAnalysis.NameAnalyser.PutSymbol | src/sem/NameAnalysisVisitor.java:16-19 | The symbol is bound in the current scope, and a duplicate is one error |
| NameAnalysis.NameAnalyser.VisitVarExpr | src/sem/NameAnalysisVisitor.java:147-171 | The result is what `ResolveExpr` gives |
| NameAnalysis.NameAnalyser.VisitFunCallExpr | src/sem/NameAnalysisVisitor.java:174-200 | The result is what `ResolveExpr` gives |
| NameAnalysis.NameAnalyser.VisitExpr | src/sem/NameAnalysisVisitor.java:203-235 | The linked expression and the error count are what `ResolveExpr` gives |
| NameAnalysis.NameAnalyser.VisitBinOp | src/sem/NameAnalysisVisitor.java:203-207 | Both operands in order; it throws exactly when either operand's traversal throws, otherwise the result is what `ResolveExpr` gives |
| NameAnalysis.NameAnalyser.VisitArrayAccessExpr | src/sem/NameAnalysisVisitor.java:210-215 | The array, then the index; it throws exactly when either throws, otherwise the result is what `ResolveExpr` gives |
| NameAnalysis.NameAnalyser.VisitArgs | src/sem/NameAnalysisVisitor.java:197-199 | The arguments and the error count are what `ResolveArgs` gives |
| NameAnalysis.NameAnalyser.VisitVarDecl | src/sem/NameAnalysisVisitor.java:111-115 | The scope and error count are what `DeclareVars` gives for one declaration |
| NameAnalysis.NameAnalyser.VisitVarDecls | src/sem/NameAnalysisVisitor.java:276-278 | The scope and error count are what `DeclareVars` gives |
| NameAnalysis.NameAnalyser.VisitBlock | src/sem/NameAnalysisVisitor.java:274-284 | The block and error count are what `ResolveBlock` gives, in a child of the current scope |
| NameAnalysis.NameAnalyser.VisitStmts | src/sem/NameAnalysisVisitor.java:280-282 | The statements and error count are what `ResolveStmts` gives |
| NameAnalysis.NameAnalyser.VisitStmt | src/sem/NameAnalysisVisitor.java:238-271 | The statement and error count are what `ResolveStmt` gives |
| NameAnalysis.NameAnalyser.VisitWhile | src/sem/NameAnalysisVisitor.java:244-248 | The result is what `ResolveStmt` gives |
| NameAnalysis.NameAnalyser.VisitIf | src/sem/NameAnalysisVisitor.java:251-258 | The result is what `ResolveStmt` gives |
| NameAnalysis.NameAnalyser.VisitIfBranches | src/sem/NameAnalysisVisitor.java:253-256 | Once the condition is analysed, the `then` and optional `else` branches are visited; whether it throws and the result are what `ResolveStmt` gives |
| NameAnalysis.NameAnalyser.VisitElse | src/sem/NameAnalysisVisitor.java:254-256 | The `else` branch is visited after the `then` branch; whether it throws and the result are what `ResolveStmt` gives |
| NameAnalysis.NameAnalyser.VisitFunDecl | src/sem/NameAnalysisVisitor.java:118-129 | The function is bound, then analysed as `ResolveFunDecl` says |
| NameAnalysis.NameAnalyser.VisitFunBody | src/sem/NameAnalysisVisitor.java:121-127 | The parameters and the block are analysed as `ResolveFunDecl` says |
| NameAnalysis.NameAnalyser.VisitStructTypeDecl | src/sem/NameAnalysisVisitor.java:93-108 | The members are bound, and the struct is a redefinition whenever one came before it |
| NameAnalysis.NameAnalyser.VisitProgram | src/sem/NameAnalysisVisitor.java:22-66 | The linked program and error count are what `ResolveProgram` gives |
| NameAnalysis.NameAnalyser.VisitStructTypeDecls | src/sem/NameAnalysisVisitor.java:26-28 | The scope and error count are what `DeclareStructs` gives |
| NameAnalysis.NameAnalyser.DeclareFunSigs | src/sem/NameAnalysisVisitor.java:36-60 | The scope and error count are what `DeclareFuns` gives |
| NameAnalysis.NameAnalyser.VisitFunDecls | src/sem/NameAnalysisVisitor.java:62-64 | The functions and error count are what `ResolveFunDecls` gives |
| NameAnalysis.FunsCompleteIff | src/sem/NameAnalysisVisitor.java:62-64 | The function loop gets through exactly when every body does |
| NameAnalysis.Analyse | src/sem/NameAnalysisVisitor.java:22-66 | The pass throws exactly when some function body throws; otherwise the structs and globals are kept and there is one function per function |
| NameAnalysis.ParsedSizeOfThrows | src/sem/NameAnalysisVisitor.java:225-228 | An assignment, anywhere among a function's statements, whose right side is a `sizeof` straight from the parser makes the pass throw |
| NameAnalysis.SizeOfProgramThrows | src/sem/NameAnalysisVisitor.java:225-228 | `int main() { int x; x = sizeof(int); return x; }` throws |
| NameAnalysis.EmptyReturnThrows | src/sem/NameAnalysisVisitor.java:268-272 | `return;` anywhere in a function body makes the pass throw |
| NameAnalysis.DeclareVarsStep | src/sem/NameAnalysisVisitor.java:111-115 | One more declaration binds it in the innermost table and counts a duplicate |
| NameAnalysis.DeclareFunsStep | src/sem/NameAnalysisVisitor.java:36-60 | One more signature binds it in the innermost table and counts a duplicate |
| NameAnalysis.DeclareStructsStep | src/sem/NameAnalysisVisitor.java:93-108 | One more struct binds its members and counts one error when any struct came before |
| NameAnalysis.ResolveFunDeclsStep | src/sem/NameAnalysisVisitor.java:62-64 | One more function is analysed in the scope the earlier ones left |
| NameAnalysis.NameAnalyser.VisitGlobals | src/sem/NameAnalysisVisitor.java:22-60 | The structs are recorded, and the root scope and error count are what `GlobalEnv` gives |
| NameAnalysis.NameAnalyser.VisitVarsAndBuiltins | src/sem/NameAnalysisVisitor.java:28-60 | After the structs, the globals and then the six built-ins go into the root scope; the scope and error count are what `GlobalEnv` gives |
| NameAnalysis.NameAnalyser.VisitNextStruct | src/sem/NameAnalysisVisitor.java:25-27 | One more struct is recorded and declared as `DeclareStructs` says |
| TypeChecking.CheckArgs | src/sem/TypeCheckVisitor.java:160-170 | Checking the arguments keeps their number and gives no type |
| TypeChecking.CheckStmts | src/sem/TypeCheckVisitor.java:40-47 | Checking the statements keeps their number and gives no type |
| TypeChecking.CheckBlock | src/sem/TypeCheckVisitor.java:33-65 | A checked block has a type |
| TypeChecking.CheckFunDecls | src/sem/TypeCheckVisitor.java:96-98 | Checking the functions keeps their number and gives no type |
| TypeChecking.CheckProgram | src/sem/TypeCheckVisitor.java:87-100 | A checked program has no type |
| TypeChecking.IdenticalIsPartialEquivalence | src/sem/TypeCheckVisitor.java:176-245 | `==` on types is symmetric and transitive, and reflexive on every type but the string-literal type |
| TypeChecking.IdenticalImpliesEqual | src/sem/TypeCheckVisitor.java:176-245 | The same object is structurally equal to itself |
| TypeChecking.BinOpNoError | src/sem/TypeCheckVisitor.java:176-245 | A binary operation is error-free exactly when its operands are the same object and the operator accepts that type |
| TypeChecking.BinOpResult | src/sem/TypeCheckVisitor.java:176-245 | A binary operation yields null, the left operand's type or INT; only ADD can yield a non-INT type |
| TypeChecking.StringOperandsNeverMatch | src/sem/TypeCheckVisitor.java:137-140 | Two string literals never match, so `"a" + "a"` is an error with no type |
| TypeChecking.DistinctDeclarationsDistinctTypes | src/sem/TypeCheckVisitor.java:176-245 | `x + y` for two `char*` variables is an error, though their types are structurally equal |
| TypeChecking.AnnotationIsResult | src/sem/TypeCheckVisitor.java:110-306 | Every annotated expression stores the type its visit returns |
| TypeChecking.ExprOnlyAnnotated | src/sem/TypeCheckVisitor.java:110-306 | The checker changes an expression only in its type annotations |
| TypeChecking.ArgsOnlyAnnotated | src/sem/TypeCheckVisitor.java:160-170 | The checker changes arguments only in their type annotations |
| TypeChecking.StmtOnlyAnnotated | src/sem/TypeCheckVisitor.java:309-368 | The checker changes a statement only in its type annotations |
| TypeChecking.StmtsOnlyAnnotated | src/sem/TypeCheckVisitor.java:40-47 | The checker changes statements only in their type annotations |
| TypeChecking.BlockOnlyAnnotated | src/sem/TypeCheckVisitor.java:33-65 | The checker changes a block only in its type annotations |
| TypeChecking.DedupShape | src/sem/TypeCheckVisitor.java:50 | Removing duplicates keeps the first returned type and adds nothing |
| TypeChecking.DedupAllIdentical | src/sem/TypeCheckVisitor.java:50 | When every returned type is the same object, one remains |
| TypeChecking.DedupMixed | src/sem/TypeCheckVisitor.java:50 | When another object is returned too, at least two remain |
| TypeChecking.BlockTypeChoice | src/sem/TypeCheckVisitor.java:50-62 | A block is VOID when nothing is returned, the returned type when all returns agree, and VOID with one error otherwise |
| TypeChecking.ExprStmtCountsAsReturn | src/sem/TypeCheckVisitor.java:309-311 | `void f() { 1; }` is an error and `int f() { 1; }` is accepted |
| TypeChecking.ConflictingReturns | src/sem/TypeCheckVisitor.java:68-84 | Returning INT and then CHAR from an INT function is two errors |
| TypeChecking.ConflictingBlock | src/sem/TypeCheckVisitor.java:50-62 | A block returning INT and CHAR is VOID with one error |
| TypeChecking.ReturnsTypes | src/sem/TypeCheckVisitor.java:364-368 | Two returns are error-free and give their two types |
| TypeChecking.ParameterNamedLikeFunction | src/sem/TypeCheckVisitor.java:68-84 | A parameter named like its function is a redeclaration error |
| TypeChecking.TypeChecker.constructor | src/sem/TypeCheckVisitor.java:87-90 | The checker starts with no struct declarations |
| TypeChecking.TypeChecker.VisitExpr | src/sem/TypeCheckVisitor.java:110-306 | The result is what `CheckExpr` gives |
| TypeChecking.TypeChecker.VisitFunCallExpr | src/sem/TypeCheckVisitor.java:149-173 | The result is what `CheckExpr` gives |
| TypeChecking.TypeChecker.VisitArgs | src/sem/TypeCheckVisitor.java:160-170 | The result is what `CheckArgs` gives |
| TypeChecking.TypeChecker.VisitBinOp | src/sem/TypeCheckVisitor.java:176-245 | The result is what `CheckExpr` gives |
| TypeChecking.TypeChecker.VisitArrayAccessExpr | src/sem/TypeCheckVisitor.java:248-259 | The result is what `CheckExpr` gives |
| TypeChecking.TypeChecker.VisitFieldAccessExpr | src/sem/TypeCheckVisitor.java:262-292 | The result is what `CheckExpr` gives |
| TypeChecking.TypeChecker.VisitStmt | src/sem/TypeCheckVisitor.java:309-368 | The result is what `CheckStmt` gives |
| TypeChecking.TypeChecker.VisitCondition | src/sem/TypeCheckVisitor.java:316-319 | A condition crashes, or is checked with the errors of its own check plus the INT rule |
| TypeChecking.TypeChecker.VisitWhile | src/sem/TypeCheckVisitor.java:314-321 | The result is what `CheckStmt` gives |
| TypeChecking.TypeChecker.VisitIf | src/sem/TypeCheckVisitor.java:324-342 | The result is what `CheckStmt` gives |
| TypeChecking.TypeChecker.VisitAssign | src/sem/TypeCheckVisitor.java:345-361 | The result is what `CheckStmt` gives |
| TypeChecking.TypeChecker.VisitVarDecls | src/sem/TypeCheckVisitor.java:103-107 | The scope and error count are what `DeclareVars` gives |
| TypeChecking.TypeChecker.VisitBlock | src/sem/TypeCheckVisitor.java:33-65 | The result is what `CheckBlock` gives |
| TypeChecking.TypeChecker.VisitStmts | src/sem/TypeCheckVisitor.java:40-47 | The result is what `CheckStmts` gives, and the returned types are collected in order |
| TypeChecking.TypeChecker.VisitFunDecl | src/sem/TypeCheckVisitor.java:68-84 | The result is what `CheckFunDecl` gives |
| TypeChecking.TypeChecker.VisitStructTypeDecl | src/sem/TypeCheckVisitor.java:23-30 | The members are bound and the declaration is recorded |
| TypeChecking.TypeChecker.VisitStructTypeDecls | src/sem/TypeCheckVisitor.java:91-94 | All members are bound and the declarations are recorded in order |
| TypeChecking.TypeChecker.VisitFunDecls | src/sem/TypeCheckVisitor.java:96-98 | The result is what `CheckFunDecls` gives |
| TypeChecking.TypeChecker.VisitProgram | src/sem/TypeCheckVisitor.java:87-100 | The result is what `CheckProgram` gives |
| StringLiterals.Escape | src/gen/StringLiteralVisitor.java:105-131 | A character is written as itself exactly when its text is one character long |
| StringLiterals.EscapeTable | src/gen/StringLiteralVisitor.java:105-131 | A character is written as itself exactly when it is none of the seven escaped ones |
| StringLiterals.BackslashNotDoubled | src/gen/StringLiteralVisitor.java:110-111 | A backslash is written as one backslash |
| StringLiterals.EscapeRoundTrip | src/gen/StringLiteralVisitor.java:105-131 | Reading the written text back gives the literal, for every literal without a backslash |
| StringLiterals.BackslashMakesEscapingAmbiguous | src/gen/StringLiteralVisitor.java:110-111 | A backslash followed by `n` and a newline are both written `\n` |
| StringLiterals.LabelsDistinct | src/gen/StringLiteralVisitor.java:12-14 | Different numbers give different labels |
| StringLiterals.EntriesAppend | src/gen/StringLiteralVisitor.java:97-137 | The entries of two lists are those of the first, then those of the second numbered on |
| StringLiterals.EntriesOne | src/gen/StringLiteralVisitor.java:97-137 | One literal is one entry with the next number |
| StringLiterals.EntryText | src/gen/StringLiteralVisitor.java:97-137 | What `visitStrLiteral` writes piece by piece is the entry |
| StringLiterals.EntriesNumbered | src/gen/StringLiteralVisitor.java:97-137 | The i-th entry carries the label with number from + i + 1 |
| StringLiterals.CallsSkipCallee | src/gen/StringLiteralVisitor.java:154-163 | A call contributes only its arguments' literals, whichever function it calls |
| StringLiterals.FieldAccessStopsThePass | src/gen/StringLiteralVisitor.java:181-185 | After type checking, a field access always ends the pass with an exception |
| StringLiterals.VariableIndexStopsThePass | src/gen/StringLiteralVisitor.java:173-178 | An array index that is a variable ends the pass with an exception |
| StringLiterals.WrittenThen | src/gen/StringLiteralVisitor.java:97-137 | Two visits in turn write the entries of both lists |
| StringLiterals.StringLiteralVisitor.constructor | src/gen/StringLiteralVisitor.java:16-19 | The counter starts at 0 and nothing is written |
| StringLiterals.StringLiteralVisitor.Uid | src/gen/StringLiteralVisitor.java:12-14 | The counter is incremented and then returned |
| StringLiterals.StringLiteralVisitor.VisitStrLiteral | src/gen/StringLiteralVisitor.java:97-137 | One entry is written under a fresh label |
| StringLiterals.StringLiteralVisitor.WriteEscaped | src/gen/StringLiteralVisitor.java:103-133 | Each character is written escaped, in order |
| StringLiterals.StringLiteralVisitor.VisitExpr | src/gen/StringLiteralVisitor.java:140-256 | The visit succeeds exactly when `Literals` does, and writes the entries of those literals |
| StringLiterals.StringLiteralVisitor.VisitArgs | src/gen/StringLiteralVisitor.java:157-161 | The visit succeeds exactly when `ArgLiterals` does, and writes their entries |
| StringLiterals.StringLiteralVisitor.VisitStmt | src/gen/StringLiteralVisitor.java:203-238 | The visit succeeds exactly when `StmtLiterals` does, and writes their entries |
| StringLiterals.StringLiteralVisitor.VisitIf | src/gen/StringLiteralVisitor.java:216-223 | The visit succeeds exactly when `StmtLiterals` does, and writes their entries |
| StringLiterals.StringLiteralVisitor.VisitBlock | src/gen/StringLiteralVisitor.java:241-249 | The visit succeeds exactly when `BlockLiterals` does, and writes their entries |
| StringLiterals.StringLiteralVisitor.VisitProgram | src/gen/StringLiteralVisitor.java:22-35 | The visit succeeds exactly when `ProgramLiterals` does, and writes their entries |
| StringLiterals.StringLiteralVisitor.EscapeChar | src/gen/StringLiteralVisitor.java:102-135 | One character is written as `Escape` gives |
| StringLiterals.EscapeStringCons | src/gen/StringLiteralVisitor.java:102-135 | A literal is escaped one character at a time |
| CodeGen.LoadImmediate | src/gen/CodeGenerator.java:255-259 | A literal takes exactly one register, the top of the pool, and changes nothing but the pool and the code |
| CodeGen.LoadLocal | src/gen/CodeGenerator.java:290-302 | A local load takes exactly one register and changes nothing but the pool and the code |
| CodeGen.GenExpr | src/gen/CodeGenerator.java:254-302 | An expression takes at most its result register, the top of the pool, leaves the struct table and both offset tables alone, only appends code and takes label numbers forward |
| CodeGen.GenPrint | src/gen/CodeGenerator.java:323-335 | `print_i` returns no register and leaves the pool as it found it |
| CodeGen.GenBinOp | src/gen/CodeGenerator.java:338-387 | A binary operation takes at most its result register from the pool |
| CodeGen.GenArith | src/gen/CodeGenerator.java:393-657 | An arithmetic or comparison operation takes at most its result register from the pool |
| CodeGen.GenImmediate | src/gen/CodeGenerator.java:405-427 | A fast path takes at most its result register from the pool |
| CodeGen.GenGeneral | src/gen/CodeGenerator.java:458-468 | The general path takes at most its result register from the pool |
| CodeGen.GenShortCircuit | src/gen/CodeGenerator.java:527-562 | `&&` and `\|\|` take at most their result register from the pool |
| CodeGen.GenStmt | src/gen/CodeGenerator.java:695-805 | A statement leaves the struct table alone, only appends code and takes label numbers forward |
| CodeGen.Store | src/gen/CodeGenerator.java:757-763 | A store to a variable gives back the register it borrows |
| CodeGen.GenStmts | src/gen/CodeGenerator.java:164-166 | Statements only append code and take label numbers forward |
| CodeGen.GenBlock | src/gen/CodeGenerator.java:154-170 | A block only appends code and takes label numbers forward |
| CodeGen.GenVarDecl | src/gen/CodeGenerator.java:216-228 | A local declaration leaves the pool as it found it |
| CodeGen.GenVarDecls | src/gen/CodeGenerator.java:157-162 | Local declarations leave the pool as they found it |
| CodeGen.GenFunDecl | src/gen/CodeGenerator.java:231-252 | A function only appends code and takes label numbers forward |
| CodeGen.GenFunDecls | src/gen/CodeGenerator.java:109-111 | Functions only append code and take label numbers forward |
| CodeGen.MainIndex | src/gen/CodeGenerator.java:91 | The index of the first function named `main`, or none when no function is |
| Generator.CodeGenerator.constructor | src/gen/CodeGenerator.java:37-39 | The generator starts in `Initial` of its register pool |
| Generator.CodeGenerator.Uid | src/gen/CodeGenerator.java:32-35 | The counter is incremented and returned |
| Generator.CodeGenerator.GetRegister | src/gen/CodeGenerator.java:44-52 | The register and state are what `GetRegister` gives |
| Generator.CodeGenerator.FreeRegister | src/gen/CodeGenerator.java:54-59 | The state is what `FreeRegister` gives |
| Generator.CodeGenerator.Write | src/gen/CodeGenerator.java:70-72 | The instructions are appended |
| Generator.CodeGenerator.SizeOfWith | src/gen/CodeGenerator.java:124-151 | The size is what `SizeOf` gives |
| Generator.CodeGenerator.GetSizeOf | src/gen/CodeGenerator.java:124-151 | The size is what `Size` gives |
| Generator.CodeGenerator.LoadImmediate | src/gen/CodeGenerator.java:255-259 | The register and state are what `LoadImmediate` gives |
| Generator.CodeGenerator.LoadLocalVar | src/gen/CodeGenerator.java:290-302 | The register and state are what `LoadLocal` gives |
| Generator.CodeGenerator.VisitExpr | src/gen/CodeGenerator.java:254-321 | The register and state are what `GenExpr` gives |
| Generator.CodeGenerator.VisitVarExpr | src/gen/CodeGenerator.java:276-288 | The register and state are what `GenExpr` gives |
| Generator.CodeGenerator.VisitPrint | src/gen/CodeGenerator.java:323-335 | The register and state are what `GenPrint` gives |
| Generator.CodeGenerator.InvertBool | src/gen/CodeGenerator.java:821-824 | The two instructions of `InvertBool` are appended |
| Generator.CodeGenerator.VisitBinOp | src/gen/CodeGenerator.java:338-387 | The register and state are what `GenBinOp` gives |
| Generator.CodeGenerator.VisitArith | src/gen/CodeGenerator.java:393-657 | The register and state are what `GenArith` gives |
| Generator.CodeGenerator.VisitImmediate | src/gen/CodeGenerator.java:405-427 | The register and state are what `GenImmediate` gives |
| Generator.CodeGenerator.VisitGeneral | src/gen/CodeGenerator.java:458-468 | The register and state are what `GenGeneral` gives |
| Generator.CodeGenerator.VisitShortCircuit | src/gen/CodeGenerator.java:527-562 | The register and state are what `GenShortCircuit` gives |
| Generator.CodeGenerator.VisitStmt | src/gen/CodeGenerator.java:695-812 | The state is what `GenStmt` gives |
| Generator.CodeGenerator.VisitWhile | src/gen/CodeGenerator.java:704-720 | The state is what `GenStmt` gives |
| Generator.CodeGenerator.VisitIf | src/gen/CodeGenerator.java:723-741 | The state is what `GenStmt` gives |
| Generator.CodeGenerator.VisitAssign | src/gen/CodeGenerator.java:744-805 | The state is what `GenStmt` gives |
| Generator.CodeGenerator.VisitBlock | src/gen/CodeGenerator.java:154-170 | The state is what `GenBlock` gives |
| Generator.CodeGenerator.VisitStmts | src/gen/CodeGenerator.java:164-166 | The state is what `GenStmts` gives |
| Generator.CodeGenerator.VisitVarDecl | src/gen/CodeGenerator.java:216-228 | The state is what `GenVarDecl` gives |
| Generator.CodeGenerator.VisitVarDecls | src/gen/CodeGenerator.java:157-162 | The state is what `GenVarDecls` gives |
| Generator.CodeGenerator.VisitFunDecl | src/gen/CodeGenerator.java:231-252 | The state is what `GenFunDecl` gives |
| Generator.CodeGenerator.VisitFunDecls | src/gen/CodeGenerator.java:109-111 | The state is what `GenFunDecls` gives |
| Generator.CodeGenerator.VisitStructTypeDecl | src/gen/CodeGenerator.java:205-213 | The state is what `GenStructDecl` gives |
| Generator.CodeGenerator.VisitStructTypeDecls | src/gen/CodeGenerator.java:77-79 | The state is what `GenStructDecls` gives |
| Generator.CodeGenerator.VisitGlobal | src/gen/CodeGenerator.java:116-122 | The state is what `GenGlobal` gives |
| Generator.CodeGenerator.VisitGlobals | src/gen/CodeGenerator.java:81-85 | The state is what `GenGlobals` gives |
| Generator.CodeGenerator.FindMain | src/gen/CodeGenerator.java:91 | The index found is `MainIndex` |
| Generator.CodeGenerator.VisitProgram | src/gen/CodeGenerator.java:75-114 | The state is what `GenProgram` gives |
| CodeGenFacts.FreeThenGet | src/gen/CodeGenerator.java:44-59 | The register freed last is the next one acquired |
| CodeGenFacts.GetThenFree | src/gen/CodeGenerator.java:44-59 | Acquiring a register and freeing it restores the pool |
| CodeGenFacts.ImplementedHoldsOne | src/gen/CodeGenerator.java:254-302 | An implemented expression holds exactly one register, the old top of the pool |
| CodeGenFacts.ArithHoldsOne | src/gen/CodeGenerator.java:393-657 | An arithmetic operation that completes holds exactly one register |
| CodeGenFacts.ExprStmtRestoresPool | src/gen/CodeGenerator.java:695-701 | An expression statement gives its register back |
| CodeGenFacts.BalancedKeepsPool | src/gen/CodeGenerator.java:695-805 | A statement without `if` leaves the pool as it found it |
| CodeGenFacts.BalancedStmtsKeepPool | src/gen/CodeGenerator.java:164-166 | Statements without `if` leave the pool as they found it |
| CodeGenFacts.IfLeaksCondition | src/gen/CodeGenerator.java:723-741 | An `if` ends one register short, its old top, even when both branches are balanced |
| CodeGenFacts.IfWithoutElseAborts | src/gen/CodeGenerator.java:736 | An `if` without `else` throws |
| CodeGenFacts.AssignToVariablePool | src/gen/CodeGenerator.java:744-763 | An assignment to a variable gives back the value's register, then the address's |
| CodeGenFacts.AssignSwapsTopTwo | src/gen/CodeGenerator.java:757-763 | An assignment to a variable swaps the two top entries of the pool |
| CodeGenFacts.LocalLoadAddress | src/gen/CodeGenerator.java:298-300 | A local is read from `-offset($sp)` |
| CodeGenFacts.LocalStoreAddress | src/gen/CodeGenerator.java:757-763 | An assignment to a local stores to `offset($sp)` |
| CodeGenFacts.LoadAndStoreDisagree | src/gen/CodeGenerator.java:300 | The load and store addresses of a local differ for every offset but 0 and the smallest `int` |
| CodeGenFacts.InvertBoolFlips | src/gen/CodeGenerator.java:821-824 | `invertBool` maps 0 to 1 and 1 to 0 |
| CodeGenFacts.SltiInverted | src/gen/CodeGenerator.java:577-586 | `slti` then `invertBool` computes `>=` |
| CodeGenFacts.LessThanLiteralLeftIsAtLeast | src/gen/CodeGenerator.java:577-586 | `k < x` with the literal on the left computes `x >= k` |
| CodeGenFacts.GreaterThanLiteralRightIsAtLeast | src/gen/CodeGenerator.java:627-633 | `x > k` with the literal on the right computes `x >= k` |
| CodeGenFacts.OtherImmediateComparisonsAreRight | src/gen/CodeGenerator.java:564-646 | The other two comparison fast paths compute the comparison |
| CodeGenFacts.GeneralComparisonsAreRight | src/gen/CodeGenerator.java:564-646 | The general paths of `<` and `>` compute the comparison |
| CodeGenFacts.GeneralEqualityIsRight | src/gen/CodeGenerator.java:648-657 | `==` computes equality |
| CodeGenFacts.ImmediateAdd | src/gen/CodeGenerator.java:405-427 | The immediate form of `k + x` computes Java's `k + x` |
| CodeGenFacts.ImmediateSubLeft | src/gen/CodeGenerator.java:441-450 | The immediate form of `k - x` computes Java's `k - x` |
| CodeGenFacts.ImmediateSubRight | src/gen/CodeGenerator.java:451-457 | The immediate form of `x - k` computes Java's `x - k` |
| CodeGenFacts.GeneralSubtractionIsMalformed | src/gen/CodeGenerator.java:464 | The general path of `-` writes `addi` with a register operand, which has no meaning |
| CodeGenFacts.LiteralsFold | src/gen/CodeGenerator.java:396-402 | Two literal operands become one `li` of Java's result in the top register |
| CodeGenFacts.FoldingWraps | src/gen/CodeGenerator.java:400 | Folding `2147483647 + 1` loads the smallest `int` |
| CodeGenFacts.OneZeroRuns | src/gen/CodeGenerator.java:527-544 | The code of `1 && 0` leaves 0 in the result register |
| CodeGenFacts.OrComputesAnd | src/gen/CodeGenerator.java:546-562 | `1 \|\| 0` evaluates to 0, as `1 && 0` does |
| CodeGenFacts.SizeOfThenImmediate | src/gen/CodeGenerator.java:676-684 | `sizeof(int)` loads 4 and the comparison fast path follows on its register |
| CodeGenFacts.LessThanCounterexample | src/gen/CodeGenerator.java:577-586 | `4 < sizeof(int)` evaluates to 1 |
| CodeGenFacts.GreaterThanCounterexample | src/gen/CodeGenerator.java:627-633 | `sizeof(int) > 4` evaluates to 1 |
| CodeGenFacts.ShortCircuitLiterals | src/gen/CodeGenerator.java:527-562 | `a && b` and `a \|\| b` on two literals write the same code up to the label prefix and hold one register |
| CodeGenFacts.AndOfLiteralsCompiles | src/gen/CodeGenerator.java:527-544 | `a && b` on two literals compiles to that code with an `endand_` label |
| CodeGenFacts.OrOfLiteralsCompiles | src/gen/CodeGenerator.java:546-562 | `a \|\| b` on two literals compiles to that code with an `endor_` label |
| LayoutFacts.SizeOfMoreFuel | src/gen/CodeGenerator.java:124-151 | More fuel never changes a size that was found |
| LayoutFacts.MembersSizeMoreFuel | src/gen/CodeGenerator.java:140-146 | More fuel never changes a member sum that was found |
| LayoutFacts.StructSizeIsMemberSum | src/gen/CodeGenerator.java:140-146 | A struct's size is the 32-bit sum of its members' sizes |
| LayoutFacts.SelfContainingStructHasNoSize | src/gen/CodeGenerator.java:140-146 | A struct with a member of its own type has no size |
| LayoutFacts.RoundUp4Bounds | src/gen/CodeGenerator.java:222 | The rounded size is the least multiple of 4 not below the size, until the cast saturates |
| LayoutFacts.MemberOffsetsTotal | src/gen/CodeGenerator.java:206-210 | The member loop crashes exactly when a member has no size, and totals the members' sizes |
| LayoutFacts.MemberOffsetIsPrefixSum | src/gen/CodeGenerator.java:206-210 | One member's offset is the sum of the sizes before it |
| LayoutFacts.MemberOffsetsKeepOthers | src/gen/CodeGenerator.java:206-210 | The loop writes only the members' offsets |
| LayoutFacts.MemberOffsetsArePrefixSums | src/gen/CodeGenerator.java:205-213 | Each member's offset is the sum of the sizes before it, and other offsets stay |
| LayoutFacts.VarDeclsPrefix | src/gen/CodeGenerator.java:157-162 | The locals before one that was reached were declared too |
| LayoutFacts.LocalOffsetIsFrameBefore | src/gen/CodeGenerator.java:220 | A local's offset is the frame size reached before it |
| LayoutFacts.FrameGrowsByRoundUp4 | src/gen/CodeGenerator.java:221-223 | One more local grows the frame by its rounded size |
| LayoutFacts.LocalsSpacedByRoundUp4 | src/gen/CodeGenerator.java:216-228 | Consecutive locals lie their rounded sizes apart, and the frame ends past the last |
| LayoutFacts.LocalsAdjacent | src/gen/CodeGenerator.java:216-228 | Two consecutive locals lie the first one's rounded size apart |
| LayoutFacts.VarDeclsOutLength | src/gen/CodeGenerator.java:226 | One instruction per local |
| LayoutFacts.LocalMovesStack | src/gen/CodeGenerator.java:226 | A local writes `addi $sp, $sp, -size` with its rounded size |
| LayoutFacts.LocalsGrowTheStack | src/gen/CodeGenerator.java:216-228 | Each local moves the stack pointer down by its rounded size, and nothing else is written |
| LayoutFacts.GlobalsShape | src/gen/CodeGenerator.java:116-122 | Globals crash exactly when one has no size, and otherwise append one instruction each |
| LayoutFacts.GlobalIsSpace | src/gen/CodeGenerator.java:119-120 | A global writes `name: .space size` |
| LayoutFacts.GlobalsAreSpaces | src/gen/CodeGenerator.java:81-85 | The globals are written as `.space` directives in order, and nothing else changes |
| LayoutFacts.StructDeclsEmitNothing | src/gen/CodeGenerator.java:205-213 | Struct declarations write no code and touch neither the pool, the label counter nor the frame size |
| LayoutFacts.StructsRegistered | src/gen/CodeGenerator.java:211 | Every declared struct is registered under its last declaration, and known names stay known |
| LayoutFacts.DataLayoutExtends | src/gen/CodeGenerator.java:76-86 | Writing more keeps the layout of what was written |
| LayoutFacts.GlobalsAfterData | src/gen/CodeGenerator.java:76-86 | The globals and `.text` follow `.data` |
| LayoutFacts.DataSectionLayout | src/gen/CodeGenerator.java:76-86 | `.data`, one `.space` per global, `.text`, and nothing else |
| LayoutFacts.MainThenExit | src/gen/CodeGenerator.java:97-111 | `main`'s entry label and body, the exit system call, then the other functions |
| LayoutFacts.TextSectionLayout | src/gen/CodeGenerator.java:88-111 | With a `main`, its label comes first and the exit call after its body; without one, nothing follows `.text` |
| LayoutFacts.ProgramLayout | src/gen/CodeGenerator.java:75-86 | A program starts with `.data`, one `.space` per global, `.text` |
| LayoutFacts.MainComesFirst | src/gen/CodeGenerator.java:88-100 | With a `main`, its entry label comes right after `.text` |
| LayoutFacts.MainAfter | src/gen/CodeGenerator.java:88-100 | Code follows `.text` exactly when there is a `main`, and then starts with its label |
| Assembly.LabelAt | src/gen/CodeGenerator.java:540 | The position of the first definition of a label, or none when it is not defined |
| Assembly.GoStraight | src/gen/CodeGenerator.java:527-562 | Where no branch is taken, running with branches steps through code as straight-line running does |
| Assembly.GoIsRun | src/gen/CodeGenerator.java:527-562 | Code whose branches are not taken runs with branches as it runs straight through |
| LabelFacts.Added | src/gen/CodeGenerator.java:70-72 | The code written between two states, which only append |
| LabelFacts.Join | src/gen/CodeGenerator.java:32-35 | Labels numbered up to a point, then labels numbered above it, from disjoint functions, are still distinct |
| LabelFacts.Fresh | src/gen/CodeGenerator.java:32-35 | A label not yet defined and in range keeps the labels distinct |
| LabelFacts.AroundLabel | src/gen/CodeGenerator.java:527-562 | The shape of the short circuit keeps labels distinct |
| LabelFacts.TwoLabels | src/gen/CodeGenerator.java:704-741 | The shapes of `while` and `if`, two labels sharing one number, keep labels distinct |
| LabelFacts.ExprLabels | src/gen/CodeGenerator.java:254-657 | The labels an expression writes are distinct and numbered above the counter it started from and up to the one it ends with |
| LabelFacts.ShortCircuitLabels | src/gen/CodeGenerator.java:527-562 | `&&` and `\|\|` write one label, numbered after the left operand's labels and before the right operand's |
| LabelFacts.ArithLabels | src/gen/CodeGenerator.java:393-657 | An arithmetic operation writes new, distinct labels |
| LabelFacts.StmtLabels | src/gen/CodeGenerator.java:695-805 | The labels a statement writes are distinct and numbered above the counter it started from and up to the one it ends with |
| LabelFacts.WhileLabels | src/gen/CodeGenerator.java:704-720 | `while_start_k` and `while_end_k` are new, and the condition's and the body's labels are numbered above `k` |
| LabelFacts.IfLabels | src/gen/CodeGenerator.java:723-741 | `if_else_k` and `if_end_k` are new, and the other labels are numbered above `k` |
| LabelFacts.AssignLabels | src/gen/CodeGenerator.java:744-805 | An assignment writes new, distinct labels |
| LabelFacts.StmtsLabels | src/gen/CodeGenerator.java:162-167 | Statements in turn write new, distinct labels |
| LabelFacts.BlockLabels | src/gen/CodeGenerator.java:154-170 | A block writes new, distinct labels; its locals write none |
| LabelFacts.FunDeclLabels | src/gen/CodeGenerator.java:231-252 | A function writes its entry label then new, distinct labels |
| LabelFacts.FunDeclsLabels | src/gen/CodeGenerator.java:109-111 | Functions with distinct names write distinct labels |
| LabelFacts.TextLabels | src/gen/CodeGenerator.java:88-111 | `main`, the exit call and the other functions write distinct labels |
| LabelFacts.DataUnlabelled | src/gen/CodeGenerator.java:76-86 | `.data`, the structs, the globals and `.text` write no label and take no number |
| LabelFacts.ProgramLabels | src/gen/CodeGenerator.java:75-114 | With distinct function names, no label of the program is defined twice, and each is a function's entry or numbered by `uid()` |
| ShortCircuitFacts.ShortCircuitCode | src/gen/CodeGenerator.java:527-562 | The code is the left operand's, `beqz` to the label, the right operand's, `move`, the label; the result is the left register |
| ShortCircuitFacts.OperandsAvoidEnd | src/gen/CodeGenerator.java:532-536 | Neither operand defines the short circuit's label |
| ShortCircuitFacts.EndLabelAt | src/gen/CodeGenerator.java:540 | The short circuit's label is defined once, at the end of its code |
| ShortCircuitFacts.GoShortCircuit | src/gen/CodeGenerator.java:527-562 | The code leaves 0 when the left value is 0, and the right value otherwise |
| ShortCircuitFacts.SkipRight | src/gen/CodeGenerator.java:535 | A zero left value branches past the right operand to the end |
| ShortCircuitFacts.ThroughRight | src/gen/CodeGenerator.java:536-539 | A non-zero left value runs the right operand and the `move` |
| ShortCircuitFacts.ShortCircuitValue | src/gen/CodeGenerator.java:527-562 | For operands whose code runs straight through, the result is 0 when the left value is 0 and the right value otherwise |
| ShortCircuitFacts.AndValue | src/gen/CodeGenerator.java:527-544 | `&&` gives a non-zero result exactly when both operands are non-zero |
| ShortCircuitFacts.OrValue | src/gen/CodeGenerator.java:546-562 | `\|\|` gives a non-zero result exactly when both operands are non-zero, as `&&` does |
| ShortCircuitFacts.LiteralsGo | src/gen/CodeGenerator.java:527-562 | On two literals the result is 0 when the first is 0 and the second otherwise |
| ShortCircuitFacts.AndOfLiterals | src/gen/CodeGenerator.java:527-544 | `a && b` on any two literals is non-zero exactly when both are |
| ShortCircuitFacts.OrOfLiterals | src/gen/CodeGenerator.java:546-562 | `a \|\| b` on any two literals is non-zero exactly when both are, so `1 \|\| 0` is false |
| ShortCircuitFacts.ExprOutFree | src/gen/CodeGenerator.java:254-657 | An expression writes the same code and ends in the same state whatever was written before it |
| ShortCircuitFacts.ShortCircuitOutFree | src/gen/CodeGenerator.java:527-562 | A short circuit writes the same code whatever was written before it |
| ShortCircuitFacts.RightOfEitherPrefix | src/gen/CodeGenerator.java:536 | The right operand writes the same code whichever label the branch over it names |
| ShortCircuitFacts.ShortCircuitDone | src/gen/CodeGenerator.java:527-562 | A short circuit completes exactly when both operands do and the right one returns a register, which goes back to the pool |
| ShortCircuitFacts.ShortCircuitDiffersInLabel | src/gen/CodeGenerator.java:527-562 | Two prefixes give the same result, state and code but for the `beqz` target and the final label |
| ShortCircuitFacts.AndOrSameCode | src/gen/CodeGenerator.java:527-562 | `a \|\| b` compiles to the code of `a && b` but for `endor_` in place of `endand_`, at the same two places |

## Specification functions

The functions below define what a pass computes and carry no `ensures` of their own. The rows above state their properties.

- `Types.Equal` (src/ast/PointerType.java:15-23, src/ast/ArrayType.java:17-26, src/ast/StructType.java:15-22, src/ast/BaseType.java:10-13): structural type equality. See `Types.EqualIsSameShape`, `Types.EqualReflexive`, `Types.EqualSymmetric` and `Types.EqualTransitive`.
- `Scopes.Find` (src/sem/Scope.java:19-23) and `Scopes.Scope.Lookup` (src/sem/Scope.java:19-30): look a name up from the innermost table outwards. See `Scopes.FindInnermost`, `Scopes.FindOuter`, `Scopes.FindAfterBind` and `Scopes.Scope.LookupIsFind`.
- `Lexer.IsDigit`, `Lexer.IsLetter` and `Lexer.IsIdentChar` (src/lexer/Tokeniser.java:258, 311, 315): the character classes. `Lexer.Keyword` (src/lexer/Tokeniser.java:319-342) gives a reserved word's token class. See `Lexer.Word`, `Lexer.WordRead` and `Lexer.DigitsRun`.
- `NameAnalysis.ResolveExpr`, `NameAnalysis.ResolveStmt` and `NameAnalysis.ResolveProgram` (src/sem/NameAnalysisVisitor.java:147-235, 238-271 and 22-66): the links name analysis sets and the errors it counts. See `NameAnalysis.NameAnalyser.VisitExpr`, `NameAnalysis.NameAnalyser.VisitStmt`, `NameAnalysis.NameAnalyser.VisitProgram` and `NameAnalysis.SizeOfProgramThrows`.
- `TypeChecking.CheckExpr` and `TypeChecking.CheckStmt` (src/sem/TypeCheckVisitor.java:110-306 and 309-368): the annotations and errors of type checking. `TypeChecking.BinOpRule` (src/sem/TypeCheckVisitor.java:176-245) is the rule for a binary operation. `TypeChecking.Dedup` and `TypeChecking.BlockType` (src/sem/TypeCheckVisitor.java:50-62) pick a block's type. See `TypeChecking.BinOpNoError`, `TypeChecking.BinOpResult`, `TypeChecking.DedupShape`, `TypeChecking.BlockTypeChoice`, `TypeChecking.AnnotationIsResult` and `TypeChecking.TypeChecker.VisitExpr`.
- `StringLiterals.Literals` and `StringLiterals.ProgramLiterals` (src/gen/StringLiteralVisitor.java:140-256 and 22-35): the literals met, in visiting order. `StringLiterals.EscapeString` (src/gen/StringLiteralVisitor.java:102-135) escapes a literal, and `StringLiterals.Label` (src/gen/StringLiteralVisitor.java:98) names it. See `StringLiterals.StringLiteralVisitor.VisitExpr`, `StringLiterals.StringLiteralVisitor.VisitProgram` and `StringLiterals.EscapeStringCons`.
- `CodeGen.GetRegister` and `CodeGen.FreeRegister` (src/gen/CodeGenerator.java:44-59): the register pool. See `Generator.CodeGenerator.GetRegister` and `Generator.CodeGenerator.FreeRegister`.
- `CodeGen.SizeOf` (src/gen/CodeGenerator.java:124-151) and `CodeGen.MemberOffsets` (src/gen/CodeGenerator.java:205-213): the layout. See `Generator.CodeGenerator.SizeOfWith`, `LayoutFacts.MemberOffsetsArePrefixSums` and `LayoutFacts.MemberOffsetsTotal`.
- `CodeGen.GenProgram`, `CodeGen.GenDataSection` and `CodeGen.GenTextSection` (src/gen/CodeGenerator.java:75-114, 76-86 and 88-111): the emitted program. See `Generator.CodeGenerator.VisitProgram`, `LayoutFacts.DataSectionLayout`, `LayoutFacts.TextSectionLayout`, `LayoutFacts.MainComesFirst` and `LabelFacts.ProgramLabels`.
- `AstPrinter.PrintExpr`, `AstPrinter.PrintStmt`, `AstPrinter.PrintProgram` and `AstPrinter.Delimit` (src/ast/ASTPrinter.java:14-285): the printed tree. See `AstPrinter.ProgramIsJoin`, `AstPrinter.BlockIsJoin`, `AstPrinter.FunDeclIsJoin`, `AstPrinter.DelimitIsJoin`, `AstPrinter.ReturnPrintsLeadingComma` and `AstPrinter.SizeOfPrintsAnnotation`.
- `Assembly.Exec` and `Assembly.Run`: the meaning of the emitted MIPS instructions. This is not Java code. It gives the code generator's output a meaning. See `Assembly.GoStraight`, `ShortCircuitFacts.AndValue` and `ShortCircuitFacts.OrValue`.

## Left out

- GenShortCircuit (`CodeGen.GenShortCircuit`): its own contract states only that it takes at most its result register from the pool. The rest of the code generator's promises are separate lemmas: `ShortCircuitFacts.ShortCircuitCode` gives its code, `ShortCircuitFacts.ShortCircuitValue` its value, and `LabelFacts.ShortCircuitLabels` and `LabelFacts.ProgramLabels` its distinct labels. Stating them in the recursive function's own `ensures` would make every recursive call carry them.
- GenStmt (`CodeGen.GenStmt`): its own contract states only that it leaves the struct table alone, appends code and moves the label counter forward. `LabelFacts.StmtLabels`, `LabelFacts.WhileLabels` and `LabelFacts.IfLabels` state that the labels of `while` and `if` are new and distinct, for the same reason.
- The LLVM passes under `src/llvm` are not part of this model: they are separate C++ programs.
- File I/O is not modelled: the `PrintWriter`s, `emitProgram` and the `println` diagnostics. The error messages' texts are not modelled either; only the error counts are.
- Output written before an exception is not described: a visit that throws is the outcome `Abort` or `Crash`, as in the Java, where the driver stops.
- `Register.java`, `Scanner.java`, `Token.java`, `BaseSemanticVisitor.java` and `Op.java` are not part of this model. The register pool is a parameter of the code generator's constructor, and the scanner is an index into the input text.
- `Parsing.Parser.constructor` takes the token stream the tokeniser hands out, `Lexer.Lex(input, 0)`, instead of the tokeniser. The tokeniser does not depend on the parser, so the two orders give the same tokens.
- The code generator's visitors that are not implemented (string literals, array and field access, value-at, typecasts, calls other than `print_i`, `return`) return null without visiting their children. The model gives them no register and writes nothing.
- Generator.CodeGenerator.VisitAssign: the address computation for a field or array element on the left of an assignment (src/gen/CodeGenerator.java:764-796) is not modelled. Only the crash at its final `freeRegister(null)` is.
- CodeGen.SizeOf: `getSizeOf` recurses without end on a struct that contains itself. The model bounds the recursion with fuel equal to the number of registered structs and reads running out as the crash, and `LayoutFacts.SizeOfMoreFuel` shows that more fuel changes nothing.
- CodeGen.RoundUp4: `Math.ceil(size / 4.0)` is computed in integers. This is exact for every `int`, and the saturating cast is written out.
- CodeGen.Uid: the label counter is unbounded; the Java `int` could overflow only after 2^31 labels.
- Negative immediates written as `"-" + n` are modelled as the number `-n`.
- Types.Equal: `StructType` and `BaseType` define a method named `Equals`, not the interface's `CheckIfTypesAreEqualThisFunctionHasALongName`. The model takes `Equals` as their structural test.
- Lexer.IsDigit, Lexer.IsLetter and Lexer.IsIdentChar: `Character.isDigit`, `Character.isAlphabetic` and `Character.isLetterOrDigit` accept every Unicode digit and letter (src/lexer/Tokeniser.java:258, 261, 311, 315); the model accepts only the ASCII ones.
- Parsing.Parser.ParseExp and Parsing.Parser.ParseNoOpExp: the `catch (StackOverflowError e)` blocks (src/parser/Parser.java:404-412 and 457-463) are not modelled. They report an error, skip a token and return null when the Java stack runs out, which depends on the JVM's stack size. The model has no depth bound, so it never takes that path. The promise that tokens the grammar accepts parse with no error therefore holds in the Java only for nesting shallow enough for its stack.
- Parsing.ParseInt: `Integer.parseInt` (src/parser/Parser.java:433) also reads non-ASCII Unicode digits; the model reads ASCII digits after an optional sign.
- AstPrinter.Printable: printing a `sizeof` before type checking dereferences its null `type` annotation (src/ast/ASTPrinter.java:210), and the Java throws a `NullPointerException`; the printer functions require trees without such nodes instead of modelling the exception.
- StringLiterals.StringLiteralVisitor.VisitStrLiteral: the label is not stored back into the node (`sl.id = sid`, src/gen/StringLiteralVisitor.java:100). Nothing in the model reads that field: the code generator does not implement string literals.
- ShortCircuitFacts.ShortCircuitValue, ShortCircuitFacts.AndValue, ShortCircuitFacts.OrValue: the value is stated for operands whose own code runs straight through (`Assembly.Run`). Operands with branches of their own, such as a nested `&&` or `||`, are covered by the code and label lemmas but not by a value lemma.
- Assembly.Go: running with branches takes a fuel bound, and running out of fuel is no result. The lemmas use the length of the code, which suffices for code without backward jumps; loops are not given a meaning.
- Floating point does not occur elsewhere; concurrency does not occur at all.
