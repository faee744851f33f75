/**
 * The N4 tokenizer: one left-to-right scan over the source with a cursor,
 * maximal-munch readers for identifiers and numbers, comment skipping,
 * single-character operator and structure lookup, then a second pass that
 * reclassifies identifiers that are keywords or type names.
 *
 * Character classes are ASCII. Tokens carry line 0: this tokenizer does not
 * count lines, and it emits neither newline nor end-of-input tokens.
 */
module Tokenizer {
  import opened Wrappers
  import opened Tokens

  predicate IsAlpha(c: char) {
    ('a' <= c <= 'z') || ('A' <= c <= 'Z')
  }

  predicate IsDigit(c: char) {
    '0' <= c <= '9'
  }

  predicate IsAlnum(c: char) {
    IsAlpha(c) || IsDigit(c)
  }

  /** A character that may start an identifier. */
  predicate IsIdentStart(c: char) {
    IsAlpha(c) || c == '_'
  }

  /** A character that may continue an identifier. */
  predicate IsIdentChar(c: char) {
    IsAlnum(c) || c == '_'
  }

  /** The classes of character run the three readers consume. */
  datatype CharClass = IdentChars | Digits | NotNewline

  predicate InClass(c: char, cls: CharClass) {
    match cls
    case IdentChars => IsIdentChar(c)
    case Digits => IsDigit(c)
    case NotNewline => c != '\n'
  }

  /** The end of the maximal run of `cls` characters that starts at `i`. */
  function RunEnd(s: string, i: nat, cls: CharClass): (j: nat)
    requires i <= |s|
    ensures i <= j <= |s|
    ensures forall k :: i <= k < j ==> InClass(s[k], cls)
    ensures j < |s| ==> !InClass(s[j], cls)
    decreases |s| - i
  {
    if i < |s| && InClass(s[i], cls) then RunEnd(s, i + 1, cls) else i
  }

  /**
   * The readers as written index the source before checking the bound, so a
   * run that reaches the end of the input raises (`None` here).
   */
  function WrittenRunEnd(s: string, i: nat, cls: CharClass): (r: Option<nat>)
    requires i <= |s|
    ensures r.Some? ==> i <= r.value < |s| && !InClass(s[r.value], cls)
    decreases |s| - i
  {
    if i == |s| then None
    else if InClass(s[i], cls) then WrittenRunEnd(s, i + 1, cls)
    else Some(i)
  }

  /** The index-first readers fail exactly when the run reaches the end of the input. */
  lemma {:induction false} WrittenRunEndFailsAtEnd(s: string, i: nat, cls: CharClass)
    requires i <= |s|
    ensures WrittenRunEnd(s, i, cls) == if RunEnd(s, i, cls) == |s| then None else Some(RunEnd(s, i, cls))
    decreases |s| - i
  {
    if i < |s| && InClass(s[i], cls) {
      WrittenRunEndFailsAtEnd(s, i + 1, cls);
    }
  }

  /** A source that ends in an identifier, such as `x`, makes the written reader fail. */
  lemma IdentifierAtEndFails()
    ensures WrittenRunEnd("x", 0, IdentChars) == None
    ensures RunEnd("x", 0, IdentChars) == 1
  {
    WrittenRunEndFailsAtEnd("x", 0, IdentChars);
    assert RunEnd("x", 1, IdentChars) == 1;
  }

  /** An operator token; the keyword pass leaves it as it is. */
  function OperatorToToken(op: char): (t: Token)
    requires op in Operators
    ensures t.kind == Operators[op] && t.literal == [op]
    ensures ResolveToken(t) == t
  {
    Token(Operators[op], [op], 0)
  }

  /** A parenthesis token; the keyword pass leaves it as it is. */
  function StructureToToken(st: char): (t: Token)
    requires st in Structures
    ensures t.kind == Structures[st] && t.literal == [st]
    ensures ResolveToken(t) == t
  {
    Token(Structures[st], [st], 0)
  }

  /** The keyword pass on one token: exact-match lookup, keywords before type names. */
  function ResolveToken(t: Token): (r: Token)
    ensures r.literal == t.literal && r.line == t.line
    ensures r.kind != t.kind ==> t.literal in Keywords || t.literal in TypeNames
  {
    if t.literal in Keywords then t.(kind := Keywords[t.literal])
    else if t.literal in TypeNames then t.(kind := TypeName)
    else t
  }

  /**
   * The keyword pass on one token as written: the type-name branch names a
   * token kind that the kind enumeration does not define, so reaching it
   * raises (`None` here).
   */
  function ResolveTokenAsWritten(t: Token): (r: Option<Token>)
    ensures r.None? ==> t.literal in TypeNames
    ensures r.Some? ==> r.value == ResolveToken(t)
  {
    if t.literal in Keywords then Some(t.(kind := Keywords[t.literal]))
    else if t.literal in TypeNames then None
    else Some(t)
  }

  /** As written, the pass raises on exactly the type names; on every other token it agrees with `ResolveToken`. */
  lemma TypeNameRaisesAsWritten(t: Token)
    ensures ResolveTokenAsWritten(t).None? <==> t.literal in TypeNames
    ensures t.literal !in TypeNames ==> ResolveTokenAsWritten(t) == Some(ResolveToken(t))
  {
    if t.literal in TypeNames {
      assert t.literal !in Keywords by {
        assert Keywords.Keys == {"fn", "if", "else", "while", "end", "return"};
      }
    }
  }

  /** The keyword pass gives every type name the type-name kind, and every keyword its own kind. */
  lemma TypeNamesBecomeTypeTokens(t: Token)
    ensures t.literal in TypeNames ==> ResolveToken(t) == t.(kind := TypeName)
    ensures t.literal in Keywords ==> ResolveToken(t) == t.(kind := Keywords[t.literal])
    ensures t.literal !in TypeNames && t.literal !in Keywords ==> ResolveToken(t) == t
  {
    if t.literal in TypeNames {
      assert t.literal !in Keywords by {
        assert Keywords.Keys == {"fn", "if", "else", "while", "end", "return"};
      }
    }
  }

  function ResolveAll(ts: seq<Token>): (r: seq<Token>)
    ensures |r| == |ts|
    ensures forall i :: 0 <= i < |ts| ==> r[i] == ResolveToken(ts[i])
  {
    if ts == [] then [] else [ResolveToken(ts[0])] + ResolveAll(ts[1..])
  }

  /** The tokens the scan loop appends for `s[i..]`, before the keyword pass. */
  function Scan(s: string, i: nat): seq<Token>
    requires i <= |s|
    decreases |s| - i
  {
    if i == |s| then []
    else
      var c := s[i];
      if IsIdentStart(c) then
        var j := RunEnd(s, i, IdentChars);
        [Token(Ident, s[i..j], 0)] + Scan(s, j)
      else if IsDigit(c) then
        var j := RunEnd(s, i, Digits);
        [Token(Number, s[i..j], 0)] + Scan(s, j)
      else if c == CommentChar then
        Scan(s, RunEnd(s, i, NotNewline))
      else if c in Operators then
        [OperatorToToken(c)] + Scan(s, i + 1)
      else if c in Structures then
        [StructureToToken(c)] + Scan(s, i + 1)
      else
        Scan(s, i + 1)
  }

  /** What every scanned token looks like. */
  ghost predicate WellShaped(t: Token) {
    && t.line == 0
    && (t.kind == Ident ==>
          |t.literal| > 0 && IsIdentStart(t.literal[0]) &&
          forall k :: 0 <= k < |t.literal| ==> IsIdentChar(t.literal[k]))
    && (t.kind == Number ==>
          |t.literal| > 0 && forall k :: 0 <= k < |t.literal| ==> IsDigit(t.literal[k]))
    && (t.kind != Ident && t.kind != Number ==>
          |t.literal| == 1 &&
          ((t.literal[0] in Operators && t.kind == Operators[t.literal[0]]) ||
           (t.literal[0] in Structures && t.kind == Structures[t.literal[0]])))
  }

  /**
   * Identifier tokens are non-empty runs of identifier characters that start
   * with a letter or `_`, number tokens are non-empty digit runs, and every
   * other token is one operator or structure character with its table kind.
   */
  lemma {:induction false} ScanWellShaped(s: string, i: nat)
    requires i <= |s|
    ensures forall t :: t in Scan(s, i) ==> WellShaped(t)
    decreases |s| - i
  {
    if i < |s| {
      var c := s[i];
      if IsIdentStart(c) {
        ScanWellShaped(s, RunEnd(s, i, IdentChars));
      } else if IsDigit(c) {
        ScanWellShaped(s, RunEnd(s, i, Digits));
      } else if c == CommentChar {
        ScanWellShaped(s, RunEnd(s, i, NotNewline));
      } else {
        ScanWellShaped(s, i + 1);
      }
    }
  }

  /** Every token consumes at least one source character. */
  lemma {:induction false} ScanLength(s: string, i: nat)
    requires i <= |s|
    ensures |Scan(s, i)| <= |s| - i
    decreases |s| - i
  {
    if i < |s| {
      var c := s[i];
      if IsIdentStart(c) {
        ScanLength(s, RunEnd(s, i, IdentChars));
      } else if IsDigit(c) {
        ScanLength(s, RunEnd(s, i, Digits));
      } else if c == CommentChar {
        ScanLength(s, RunEnd(s, i, NotNewline));
      } else {
        ScanLength(s, i + 1);
      }
    }
  }

  /** Every keyword and type name is at least two letters long. */
  lemma ReservedWordsAreLetters()
    ensures forall w :: w in Keywords ==> |w| >= 2 && IsAlpha(w[0])
    ensures forall w :: w in TypeNames ==> |w| >= 2 && IsAlpha(w[0])
  {
    assert Keywords.Keys == {"fn", "if", "else", "while", "end", "return"};
    forall w | w in Keywords ensures |w| >= 2 && IsAlpha(w[0]) {
      assert w == "fn" || w == "if" || w == "else" || w == "while" || w == "end" || w == "return";
    }
    forall w | w in TypeNames ensures |w| >= 2 && IsAlpha(w[0]) {
      assert w == "byte" || w == "short" || w == "int" || w == "long" || w[0] == 'u';
    }
  }

  /** On scanned tokens the keyword pass changes the kind of identifier tokens only. */
  lemma ResolveChangesOnlyIdents(s: string)
    ensures forall t :: t in Scan(s, 0) ==> ResolveToken(t).kind == t.kind || t.kind == Ident
  {
    ScanWellShaped(s, 0);
    ReservedWordsAreLetters();
    forall t | t in Scan(s, 0)
      ensures ResolveToken(t).kind == t.kind || t.kind == Ident
    {
      assert WellShaped(t);
    }
  }

  class Tokenizer {
    var tokens: seq<Token>

    constructor ()
      ensures tokens == []
    {
      tokens := [];
    }

    /** Reads the maximal identifier run that starts at `idx`. */
    method ReadIdent(source: string, idx: nat) returns (token: Token, next: nat)
      requires idx <= |source|
      ensures idx <= next <= |source|
      ensures forall k :: idx <= k < next ==> IsIdentChar(source[k])
      ensures next < |source| ==> !IsIdentChar(source[next])
      ensures token == Token(Ident, source[idx..next], 0)
    {
      var ident: string := [];
      next := idx;
      while next < |source| && IsIdentChar(source[next])
        invariant idx <= next <= |source|
        invariant RunEnd(source, next, IdentChars) == RunEnd(source, idx, IdentChars)
        invariant ident == source[idx..next]
        decreases |source| - next
      {
        ident := ident + [source[next]];
        next := next + 1;
      }
      token := Token(Ident, ident, 0);
    }

    /** Reads the maximal digit run that starts at `idx`. */
    method ReadNumber(source: string, idx: nat) returns (token: Token, next: nat)
      requires idx <= |source|
      ensures idx <= next <= |source|
      ensures forall k :: idx <= k < next ==> IsDigit(source[k])
      ensures next < |source| ==> !IsDigit(source[next])
      ensures token == Token(Number, source[idx..next], 0)
    {
      var number: string := [];
      next := idx;
      while next < |source| && IsDigit(source[next])
        invariant idx <= next <= |source|
        invariant RunEnd(source, next, Digits) == RunEnd(source, idx, Digits)
        invariant number == source[idx..next]
        decreases |source| - next
      {
        number := number + [source[next]];
        next := next + 1;
      }
      token := Token(Number, number, 0);
    }

    /** Skips to the next newline, which is not consumed, or to the end of the input. */
    method ConsumeComment(source: string, idx: nat) returns (next: nat)
      requires idx <= |source|
      ensures idx <= next <= |source|
      ensures forall k :: idx <= k < next ==> source[k] != '\n'
      ensures next < |source| ==> source[next] == '\n'
    {
      next := idx;
      while next < |source| && source[next] != '\n'
        invariant idx <= next <= |source|
        invariant RunEnd(source, next, NotNewline) == RunEnd(source, idx, NotNewline)
        decreases |source| - next
      {
        next := next + 1;
      }
    }

    /** Rewrites, in place, the kind of every token whose literal is a keyword or a type name. */
    method ResolveKeywords()
      modifies this
      ensures |tokens| == |old(tokens)|
      ensures forall i :: 0 <= i < |tokens| ==>
        tokens[i].literal == old(tokens)[i].literal && tokens[i].line == old(tokens)[i].line
      ensures forall i :: 0 <= i < |tokens| ==>
        tokens[i].kind ==
          if old(tokens)[i].literal in Keywords then Keywords[old(tokens)[i].literal]
          else if old(tokens)[i].literal in TypeNames then TypeName
          else old(tokens)[i].kind
      ensures tokens == ResolveAll(old(tokens))
    {
      var i := 0;
      while i < |tokens|
        invariant 0 <= i <= |tokens| == |old(tokens)|
        invariant forall k :: 0 <= k < i ==> tokens[k] == ResolveToken(old(tokens)[k])
        invariant forall k :: i <= k < |tokens| ==> tokens[k] == old(tokens)[k]
      {
        tokens := tokens[i := ResolveToken(tokens[i])];
        i := i + 1;
      }
    }

    /**
     * Appends the tokens of `source` to `tokens`, then runs the keyword pass
     * over all of them.
     */
    method Tokenize(source: string)
      modifies this
      ensures tokens == ResolveAll(old(tokens) + Scan(source, 0))
    {
      var idx: nat := 0;
      while idx < |source|
        invariant idx <= |source|
        invariant tokens + Scan(source, idx) == old(tokens) + Scan(source, 0)
        decreases |source| - idx
      {
        var c := source[idx];
        if IsIdentStart(c) {
          var token;
          token, idx := ReadIdent(source, idx);
          tokens := tokens + [token];
          continue;
        } else if IsDigit(c) {
          var token;
          token, idx := ReadNumber(source, idx);
          tokens := tokens + [token];
          continue;
        } else if c == CommentChar {
          idx := ConsumeComment(source, idx);
          continue;
        } else if c in Operators {
          tokens := tokens + [OperatorToToken(c)];
        } else if c in Structures {
          tokens := tokens + [StructureToToken(c)];
        }
        idx := idx + 1;
      }
      ResolveKeywords();
    }
  }
}
