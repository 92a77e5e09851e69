/**
 * The symbol taxonomy of the WIQL front end: the concrete token classes produced
 * by the lexer, the composite (SymbolTree) classes built from grammar productions,
 * the single-inheritance class hierarchy above them, and tokens and symbols as values.
 */
module Symbols {
  import opened Wrappers

  /** Every concrete token class; each one extends the abstract Token class directly. */
  datatype TokenKind =
    // keywords
    | Select | From | Where | OrderBy | Asc | Desc | Asof | Not | Ever | In | Like | Under
    | WorkItems | WorkItemLinks | And | Or | Contains | Words | Group | True | False
    // operators and punctuation
    | RParen | LParen | RSqBracket | LSqBracket | Comma | Equals | NotEquals
    | GreaterThan | LessThan | GreaterOrEq | LessOrEq | Minus | Plus
    // literals, identifiers and lexical error markers
    | UnexpectedToken | String | NonterminatingString | Identifier | Digits | Variable
    // link-query keywords
    | Mode | MustContain | MayContain | DoesNotContain | Source | Target | Dot
    | Recursive | ReturnMatchingChildren
    // end of input
    | EOF

  /** Every concrete SymbolTree class; each one extends the abstract SymbolTree class directly. */
  datatype TreeKind =
    | Number | Field | ContainsWords | InGroup | DateTime
    | OrderByFieldList | FieldList | ConditionalOperator | Value | ValueList
    | LogicalExpression | ConditionalExpression | FlatSelect | SourcePrefix | TargetPrefix
    | LinkCondition | LinkExpression | LinkOrderByFieldList | OneHopSelect | RecursiveSelect

  /** A class of the hierarchy: the three abstract bases and the concrete classes. */
  datatype Class =
    | SymbolBase
    | TokenBase
    | SymbolTreeBase
    | OfToken(token: TokenKind)
    | OfTree(tree: TreeKind)

  predicate Concrete(c: Class) {
    c.OfToken? || c.OfTree?
  }

  /** The immediate superclass; `None` for Symbol, whose superclass lies outside the hierarchy. */
  function Parent(c: Class): (p: Option<Class>)
    ensures Concrete(c) ==> p.Some? && !Concrete(p.value)
    ensures p.None? <==> c == SymbolBase
  {
    match c
    case SymbolBase => None
    case TokenBase => Some(SymbolBase)
    case SymbolTreeBase => Some(SymbolBase)
    case OfToken(_) => Some(TokenBase)
    case OfTree(_) => Some(SymbolTreeBase)
  }

  function Depth(c: Class): nat {
    match c
    case SymbolBase => 0
    case TokenBase => 1
    case SymbolTreeBase => 1
    case _ => 2
  }

  /** `a` is `b` or a subclass of `b`: the prototype chain walked by `instanceof`. */
  predicate Extends(a: Class, b: Class)
    decreases Depth(a)
  {
    a == b || (Parent(a).Some? && Extends(Parent(a).value, b))
  }

  /**
   * `isTokenClass`: the class's immediate superclass is Token. That holds for
   * every concrete token class, EOF included, and for nothing else.
   */
  function IsTokenClass(c: Class): (r: bool)
    ensures r <==> c.OfToken?
  {
    Parent(c) == Some(TokenBase)
  }

  /** A lexical token. `prev` is set only on EOF, where it is the last token before the end. */
  datatype Token = Token(kind: TokenKind, line: int, startColumn: int, text: string,
                         endColumn: int, prev: Option<Token>)

  /**
   * The length of a string as a JavaScript string reports it: the number of
   * UTF-16 code units, one for a character below U+10000 and two (a surrogate
   * pair) for any other.
   */
  function Utf16Length(s: string): (n: nat)
    ensures |s| <= n <= 2 * |s|
    ensures n == |s| <==> forall i :: 0 <= i < |s| ==> s[i] as int < 0x1_0000
  {
    if s == [] then 0
    else
      assert forall i :: 0 < i < |s| ==> s[1..][i - 1] == s[i];
      (if s[0] as int < 0x1_0000 then 1 else 2) + Utf16Length(s[1..])
  }

  /** The position invariant every token keeps: its end column is its start column plus its text's length in UTF-16 code units. */
  predicate Positioned(t: Token) {
    t.endColumn == t.startColumn + Utf16Length(t.text)
  }

  /** The Token constructor, for every token class other than EOF. */
  function NewToken(kind: TokenKind, line: int, startColumn: int, text: string): (t: Token)
    requires kind != EOF
    ensures Positioned(t)
    ensures t.kind == kind && t.line == line && t.startColumn == startColumn && t.text == text
    ensures t.prev == None
  {
    Token(kind, line, startColumn, text, Utf16Length(text) + startColumn, None)
  }

  /** The EOF constructor: empty text, so it ends where it starts, and a link to the previous token. */
  function NewEof(line: int, startColumn: int, prev: Token): (t: Token)
    ensures Positioned(t) && t.endColumn == t.startColumn
    ensures t.kind == EOF && t.line == line && t.startColumn == startColumn && t.text == ""
    ensures t.prev == Some(prev)
  {
    Token(EOF, line, startColumn, "", Utf16Length("") + startColumn, Some(prev))
  }

  /** A character outside the Basic Multilingual Plane advances the end column by two. */
  lemma AstralEndColumn()
    ensures NewToken(String, 1, 10, "a\U{1F600}").endColumn == 13
  {
  }

  /** A grammar symbol: a token, or a composite node owning its ordered inputs. */
  datatype Symbol =
    | Tok(token: Token)
    | Tree(kind: TreeKind, inputs: seq<Symbol>)

  /** The runtime class of a symbol. */
  function ClassOf(s: Symbol): (c: Class)
    ensures Concrete(c)
  {
    match s
    case Tok(t) => OfToken(t.kind)
    case Tree(k, _) => OfTree(k)
  }

  /** `s instanceof c`. */
  predicate InstanceOf(s: Symbol, c: Class) {
    Extends(ClassOf(s), c)
  }

  /**
   * Since no concrete class extends another, `instanceof` a concrete class is
   * equality of the runtime class with it; every symbol is an instance of the
   * abstract Symbol class and of exactly one of Token and SymbolTree.
   */
  lemma InstanceOfConcrete(s: Symbol, c: Class)
    ensures Concrete(c) ==> (InstanceOf(s, c) <==> ClassOf(s) == c)
    ensures InstanceOf(s, SymbolBase)
    ensures InstanceOf(s, TokenBase) <==> s.Tok?
    ensures InstanceOf(s, SymbolTreeBase) <==> s.Tree?
  {
    var k := ClassOf(s);
    var p := Parent(k).value;
    forall b: Class ensures Extends(k, b) <==> b == k || b == p || b == SymbolBase {
      assert Extends(SymbolBase, b) <==> b == SymbolBase;
      assert Extends(p, b) <==> b == p || b == SymbolBase;
    }
    assert Extends(k, TokenBase) <==> s.Tok?;
    assert Extends(k, SymbolTreeBase) <==> s.Tree?;
  }
}
