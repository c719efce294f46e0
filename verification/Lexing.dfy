/** What the lexer makes of a text: nested tokens in round or square brackets. */
module Lexing {
  datatype Option<T> = None | Some(value: T)

  datatype Location = Location(line: nat, column: nat)

  datatype Token = Value(value: string, loc: Location) | Group(delimiter: char, children: seq<Token>, loc: Location)

  /** The tokens up to a closing bracket or the end of the text, what is left, and where it starts. The source aborts
      at a text that it cannot read. */
  datatype Lexed = Abort | Done(tokens: seq<Token>, rest: string, loc: Location)

  function Step(l: Location, c: char): Location {
    if c == '\n' then Location(l.line + 1, 1) else Location(l.line, l.column + 1)
  }

  function Advance(l: Location, s: string): Location {
    if s == [] then l else Step(Advance(l, s[..|s| - 1]), s[|s| - 1])
  }

  lemma {:induction false} AdvanceMore(l: Location, s: string, t: string)
    ensures Advance(l, s + t) == Advance(Advance(l, s), t)
  {
    if t == [] {
      assert s + t == s;
    } else {
      assert (s + t)[..|s + t| - 1] == s + t[..|t| - 1];
      AdvanceMore(l, s, t[..|t| - 1]);
    }
  }

  predicate IsAlnum(c: char) {
    'a' <= c <= 'z' || 'A' <= c <= 'Z' || '0' <= c <= '9'
  }

  const PUNCTUATION := "!@$%^&*{}:.,<>?/'|=+-_~`"

  predicate IsIdentifierChar(c: char) {
    IsAlnum(c) || c in PUNCTUATION
  }

  predicate IsSpace(c: char) {
    c == '\n' || c == '\t' || c == ' ' || c == '\U{c2}' || c == '\r'
  }

  // ---------------------------------------------------------------- how far the scans go; none is the end of the file

  function Plus(o: Option<nat>, k: nat): Option<nat> {
    if o.Some? then Some(o.value + k) else None
  }

  /** From behind the opening quote to behind the closing one. A backslash makes a quote part of the string. */
  function StringLength(s: string): (n: Option<nat>)
    ensures n.Some? ==> 0 < n.value <= |s|
  {
    if s == [] then None
    else if s[0] == '\\' then
      if |s| == 1 then None else if s[1] == '"' then Plus(StringLength(s[2..]), 2) else Plus(StringLength(s[1..]), 1)
    else if s[0] == '"' then Some(1)
    else Plus(StringLength(s[1..]), 1)
  }

  /** To behind the end of the line. */
  function LineLength(s: string): (n: Option<nat>)
    ensures n.Some? ==> 0 < n.value <= |s|
  {
    if s == [] then None else if s[0] == '\n' then Some(1) else Plus(LineLength(s[1..]), 1)
  }

  function DepthAfter(depth: nat, c: char, next: char): nat
    requires depth > 0
  {
    if c == '#' && next == '|' then depth + 1 else if c == '|' && next == '#' then depth - 1 else depth
  }

  /** From behind the first `#` of a comment to behind the last. */
  function CommentLength(s: string, depth: nat): (n: Option<nat>)
    requires depth > 0
    ensures n.Some? ==> 0 < n.value <= |s|
    decreases |s|
  {
    if s == [] || ((s[0] == '#' || s[0] == '|') && |s| == 1) then None
    else
      var d := if s[0] == '#' || s[0] == '|' then DepthAfter(depth, s[0], s[1]) else depth;
      if d == 0 then Some(2) else Plus(CommentLength(s[1..], d), 1)
  }

  /** Over identifier characters to the first other one. */
  function IdentifierLength(s: string): (n: Option<nat>)
    ensures n.Some? ==> n.value <= |s|
  {
    if s == [] then None else if IsIdentifierChar(s[0]) then Plus(IdentifierLength(s[1..]), 1) else Some(0)
  }

  // ---------------------------------------------------------------- the lexer

  /** `0`, the character, stands for no bracket: the outermost level. */
  const NO_BRACKET := '\0'

  function Closing(c: char): char {
    if c == NO_BRACKET then NO_BRACKET else if c == '(' then ')' else ']'
  }

  function Cons(t: Token, l: Lexed): Lexed {
    if l.Abort? then l else Done([t] + l.tokens, l.rest, l.loc)
  }

  function Lex(s: string, loc: Location, closing: char): (l: Lexed)
    ensures l.Done? ==> |l.rest| <= |s| && (l.rest != [] ==> l.rest[0] == closing)
    decreases |s|
  {
    if s == [] then Done([], s, loc)
    else if s[0] == ')' || s[0] == ']' then if s[0] == closing then Done([], s, loc) else Abort
    else
      var after := Step(loc, s[0]);
      var s' := s[1..];
      if s[0] == '"' then
        var n := StringLength(s');
        if n.None? then Abort
        else Cons(Value(s[..n.value + 1], loc), Lex(s'[n.value..], Advance(after, s'[..n.value]), closing))
      else if s[0] == ';' then
        var n := LineLength(s');
        if n.None? then Abort else Lex(s'[n.value..], Advance(after, s'[..n.value]), closing)
      else if s[0] == '#' then
        if s' == [] then Abort
        else if s'[0] != '|' then Lex(s', after, closing)
        else
          var n := CommentLength(s', 1);
          if n.None? then Abort else Lex(s'[n.value..], Advance(after, s'[..n.value]), closing)
      else if s[0] == '[' || s[0] == '(' then
        var inner := Lex(s', after, Closing(s[0]));
        if inner.Abort? || inner.rest == [] then Abort
        else Cons(Group(s[0], inner.tokens, after), Lex(inner.rest[1..], Step(inner.loc, inner.rest[0]), closing))
      else if IsSpace(s[0]) then Lex(s', after, closing)
      else if IsIdentifierChar(s[0]) then
        var n := IdentifierLength(s');
        if n.None? then Abort
        else Cons(Value(s[..n.value + 1], loc), Lex(s'[n.value..], Advance(after, s'[..n.value]), closing))
      else Abort
  }

  // ---------------------------------------------------------------- trees of tokens, without locations

  datatype Tree = Leaf(value: string) | Branch(delimiter: char, children: seq<Tree>)

  function Strip(t: Token): Tree {
    match t
    case Value(v, _) => Leaf(v)
    case Group(d, cs, _) => Branch(d, StripAll(cs))
  }

  function StripAll(ts: seq<Token>): seq<Tree> {
    seq(|ts|, i requires 0 <= i < |ts| => Strip(ts[i]))
  }

  /** A leaf that the lexer reads as one token: an identifier or a string. */
  predicate LexableLeaf(v: string) {
    IsIdentifier(v) || IsString(v)
  }

  predicate IsIdentifier(v: string) {
    v != [] && forall i | 0 <= i < |v| :: IsIdentifierChar(v[i])
  }

  /** In quotes; a quote inside follows a backslash, the last one does not. */
  predicate IsString(v: string) {
    && |v| >= 2 && v[0] == '"' && v[|v| - 1] == '"'
    && (forall i | 1 <= i < |v| - 1 && v[i] == '"' :: v[i - 1] == '\\')
    && v[|v| - 2] != '\\'
  }

  predicate Lexable(t: Tree) {
    match t
    case Leaf(v) => LexableLeaf(v)
    case Branch(d, cs) => (d == '(' || d == '[') && forall i | 0 <= i < |cs| :: Lexable(cs[i])
  }
}
