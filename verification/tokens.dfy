/**
 * Token kinds and tokens of the N4 language.
 *
 * One kind enumeration covers every kind the parser refers to (newline, EOF,
 * type names, commas, comparisons, ampersand), although the tokenizer of this
 * model produces only a subset of them.
 */
module Tokens {

  datatype TokenKind =
    | Fn | If | Else | While | End | Return
    | Ident | Number | TypeName
    | LeftParen | RightParen | Comma | Newline | Eof
    /** Declared by the tokenizer's kind enumeration (tokenizer.py:18); no token of this kind is ever produced, since comments are skipped. */
    | Comment
    | Plus | Minus | Star | Slash | Colon | Assign
    | Less | Greater | LessEqual | GreaterEqual | Ampersand

  /** A token; `line` is 0 when the producer does not track lines. */
  datatype Token = Token(kind: TokenKind, literal: string, line: nat)

  /** The single-character operator table. */
  const Operators: map<char, TokenKind> :=
    map['+' := Plus, '-' := Minus, '*' := Star, '/' := Slash, ':' := Colon, '=' := Assign]

  /** The single-character structure table. */
  const Structures: map<char, TokenKind> :=
    map['(' := LeftParen, ')' := RightParen]

  /** Reserved words and the kind each one is given. */
  const Keywords: map<string, TokenKind> :=
    map["fn" := Fn, "if" := If, "else" := Else, "while" := While, "end" := End, "return" := Return]

  /** Names that are reclassified as type-name tokens. */
  const TypeNames: set<string> :=
    {"byte", "short", "int", "long", "ubyte", "ushort", "uint", "ulong"}

  const CommentChar: char := ';'
}
