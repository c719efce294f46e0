/** The lexer as the source runs it: a position that moves through the text. */
module Lexers {
  import opened Lexing

  class Lexer {
    const code: string
    const start: Location
    var pos: nat
    var loc: Location
    var depth: nat

    /** The location is that of the position. */
    ghost predicate Valid()
      reads this
    {
      pos <= |code| && loc == Advance(start, code[..pos])
    }

    constructor (loc: Location, code: string)
      ensures Valid() && this.code == code && this.start == loc && pos == 0 && depth == 0 && this.loc == loc
    {
      this.code, this.start, this.loc, pos, depth := code, loc, loc, 0, 0;
    }

    /** `get`; none stands for the failed assertion at the end of the file, which ends the program. */
    method Get() returns (c: Option<char>)
      requires Valid()
      modifies this`pos, this`loc
      ensures Valid()
      ensures old(pos) == |code| ==> c == None && pos == old(pos)
      ensures old(pos) < |code| ==>
        c == Some(code[old(pos)]) && pos == old(pos) + 1 && loc == Step(old(loc), code[old(pos)])
    {
      if pos == |code| {
        return None;
      }
      var ch := code[pos];
      pos := pos + 1;
      loc := Location(loc.line, loc.column + 1);
      if ch == '\n' {
        loc := Location(loc.line + 1, 1);
      }
      assert code[..pos][..pos - 1] == code[..pos - 1];
      c := Some(ch);
    }

    /** `peek` */
    method Peek() returns (c: Option<char>)
      requires Valid()
      ensures c == if pos == |code| then None else Some(code[pos])
    {
      c := if pos == |code| then None else Some(code[pos]);
    }

    /** The scan of a string, behind its opening quote. */
    method ScanString() returns (ok: bool)
      requires Valid()
      modifies this`pos, this`loc
      ensures Valid() && pos >= old(pos) && Moved(ok, old(pos), StringLength(code[old(pos)..]))
    {
      hide StringLength, Advance;
      ghost var from := pos;
      var c: char := ' ';
      while c != '"'
        invariant Valid() && from <= pos
        invariant c != '"' ==> StringLength(code[from..]) == Plus(StringLength(code[pos..]), pos - from)
        invariant c == '"' ==> StringLength(code[from..]) == Some(pos - from)
        decreases |code| - pos, if c == '"' then 0 else 1
      {
        StringStep(code, pos);
        var next := Get();
        if next.None? { return false; }
        c := next.value;
        if c == '\\' {
          var quote := Peek();
          if quote.None? { return false; }
          if quote.value == '"' {
            var _ := Get();
          }
        }
      }
      ok := true;
    }

    /** What a scan did, given how far it should go. */
    ghost predicate Moved(ok: bool, from: nat, n: Option<nat>)
      reads this
    {
      (ok <==> n.Some?) && (ok ==> pos == from + n.value)
    }

    /** `while (get() != '\n');` */
    method ScanLine() returns (ok: bool)
      requires Valid()
      modifies this`pos, this`loc
      ensures Valid() && pos >= old(pos) && Moved(ok, old(pos), LineLength(code[old(pos)..]))
    {
      ghost var from := pos;
      var c: char := ' ';
      while c != '\n'
        invariant Valid() && from <= pos
        invariant c != '\n' ==> LineLength(code[from..]) == Plus(LineLength(code[pos..]), pos - from)
        invariant c == '\n' ==> LineLength(code[from..]) == Some(pos - from)
        decreases |code| - pos, if c == '\n' then 0 else 1
      {
        ghost var here := pos;
        var next := Get();
        if next.None? { return false; }
        c := next.value;
        assert code[here..][1..] == code[pos..];
      }
      ok := true;
    }

    /** The scan of a comment, behind its first `#`. */
    method ScanComment() returns (ok: bool)
      requires Valid()
      modifies this`pos, this`loc
      ensures Valid() && pos >= old(pos) && Moved(ok, old(pos), CommentLength(code[old(pos)..], 1))
    {
      hide CommentLength, Advance;
      ghost var from := pos;
      var commentDepth := 1;
      while commentDepth > 0
        invariant Valid() && from <= pos && commentDepth >= 0
        invariant commentDepth > 0 ==>
          CommentLength(code[from..], 1) == Plus(CommentLength(code[pos..], commentDepth), pos - from)
        invariant commentDepth == 0 ==>
          CommentLength(code[from..], 1) == Some(pos + 1 - from) && pos < |code| && code[pos] == '#'
        decreases |code| - pos
      {
        CommentStep(code, pos, commentDepth);
        var c := Get();
        if c.None? { return false; }
        if c.value == '#' {
          var next := Peek();
          if next.None? { return false; }
          if next.value == '|' { commentDepth := commentDepth + 1; }
        }
        if c.value == '|' {
          var next := Peek();
          if next.None? { return false; }
          if next.value == '#' { commentDepth := commentDepth - 1; }
        }
      }
      var c := Get();
      assert c == Some('#');
      ok := true;
    }

    /** `while (isValidIdentifierChar(peek())) get();` */
    method ScanIdentifier() returns (ok: bool)
      requires Valid()
      modifies this`pos, this`loc
      ensures Valid() && pos >= old(pos) && Moved(ok, old(pos), IdentifierLength(code[old(pos)..]))
    {
      hide IsIdentifierChar;
      ghost var from := pos;
      var c := Peek();
      while c.Some? && IsIdentifierChar(c.value)
        invariant Valid() && from <= pos && c == (if pos == |code| then None else Some(code[pos]))
        invariant IdentifierLength(code[from..]) == Plus(IdentifierLength(code[pos..]), pos - from)
        decreases |code| - pos
      {
        ghost var here := pos;
        var _ := Get();
        assert code[here..][1..] == code[pos..];
        c := Peek();
      }
      ok := c.Some?;
    }

    /** The location after a scan. */
    lemma {:induction false} Located(p: nat, q: nat)
      requires p < q <= |code|
      ensures Advance(start, code[..q]) == Advance(Step(Advance(start, code[..p]), code[p]), code[p + 1..q])
      ensures q == p + 1 ==> Advance(start, code[..q]) == Step(Advance(start, code[..p]), code[p])
      ensures code[p..][0] == code[p] && code[p..][1..] == code[p + 1..] && code[p..][..q - p] == code[p..q]
      ensures code[p + 1..][..q - p - 1] == code[p + 1..q] && code[p + 1..][q - p - 1..] == code[q..]
    {
      assert code[..p + 1] + code[p + 1..q] == code[..q];
      AdvanceMore(start, code[..p + 1], code[p + 1..q]);
      assert code[..p + 1][..p] == code[..p];
    }

    /** What holds behind the first character of a turn, `c`, that was at `cloc`. */
    ghost predicate Behind(c: char, cloc: Location)
      reads this
    {
      Valid() && 0 < pos && code[pos - 1] == c && cloc == Advance(start, code[..pos - 1])
    }

    /** A string or an identifier, behind its first character. */
    method LexValue(c: char, cloc: Location, ghost expected: char) returns (ok: bool, child: Option<Token>)
      requires Behind(c, cloc)
      requires c == '"' || (IsIdentifierChar(c) && c != ';' && c != '#' && c != '[' && c != '(' && c != ')' && c != ']'
        && !IsSpace(c))
      modifies this`pos, this`loc
      ensures Valid() && pos >= old(pos)
      ensures Lex(code[old(pos) - 1..], cloc, expected) == OneMore(ok, child, Lex(code[pos..], loc, expected))
    {
      hide Lex, StringLength, IdentifierLength, IsIdentifierChar, IsSpace, Advance;
      ghost var p := pos - 1;
      var begin := pos - 1;
      Located(p, p + 1);
      if c == '"' {
        UnfoldString(code[p..], cloc, expected);
        ok := ScanString();
      } else {
        UnfoldIdentifier(code[p..], cloc, expected);
        ok := ScanIdentifier();
      }
      child := None;
      if ok {
        Located(p, pos);
        child := Some(Value(code[begin..pos], cloc));
      }
    }

    /** A comment, or a lone `#`, which makes no token. */
    method SkipComment(c: char, cloc: Location, ghost expected: char) returns (ok: bool)
      requires Behind(c, cloc) && (c == ';' || c == '#')
      modifies this`pos, this`loc
      ensures Valid() && pos >= old(pos)
      ensures Lex(code[old(pos) - 1..], cloc, expected) == OneMore(ok, None, Lex(code[pos..], loc, expected))
    {
      hide Lex, LineLength, CommentLength, Advance;
      ghost var p := pos - 1;
      Located(p, p + 1);
      ok := true;
      if c == ';' {
        UnfoldLine(code[p..], cloc, expected);
        ok := ScanLine();
      } else {
        UnfoldHash(code[p..], cloc, expected);
        var next := Peek();
        assert next.Some? ==> code[p..][1] == next.value;
        if next.None? {
          ok := false;
        } else if next.value == '|' {
          ok := ScanComment();
        }
      }
      if ok {
        Located(p, pos);
      }
    }

    /** One turn of the loop of `lex`: one token, or text that makes none. It fails where the source would abort. */
    method LexOne(ghost expected: char) returns (ok: bool, child: Option<Token>)
      requires Valid() && pos < |code| && code[pos] != ')' && code[pos] != ']'
      modifies this
      ensures Valid() && pos >= old(pos) && (ok ==> pos > old(pos) && depth == old(depth))
      ensures Lex(code[old(pos)..], old(loc), expected) == OneMore(ok, child, Lex(code[pos..], loc, expected))
      decreases |code| - pos, 0
    {
      hide Lex, StringLength, LineLength, CommentLength, IdentifierLength, IsIdentifierChar, IsSpace, Advance;
      ghost var p := pos;
      var cloc := loc;
      var first := Get();
      var c := first.value;
      assert code[p..][1..] == code[p + 1..] && code[p..][0] == c;
      ok, child := true, None;
      if c == ';' || c == '#' {
        ok := SkipComment(c, cloc, expected);
      } else if c == '[' || c == '(' {
        UnfoldBracket(code[p..], cloc, expected);
        child := LexGroup(c, expected);
        ok := child.Some?;
      } else if c != '"' && IsSpace(c) {
        UnfoldSpace(code[p..], cloc, expected);
      } else if c == '"' || IsIdentifierChar(c) {
        ok, child := LexValue(c, cloc, expected);
      } else {
        UnfoldOther(code[p..], cloc, expected);
        ok := false;
      }
    }

    /** A token in brackets, behind its opening bracket. */
    method LexGroup(c: char, ghost expected: char) returns (child: Option<Token>)
      requires Valid()
      modifies this
      ensures Valid() && pos <= |code| && pos >= old(pos) && (child.Some? ==> depth == old(depth))
      ensures var inner := Lex(code[old(pos)..], old(loc), Closing(c));
        && (inner.Abort? || inner.rest == [] ==> child == None)
        && (!inner.Abort? && inner.rest != [] ==>
              && child == Some(Group(c, inner.tokens, old(loc)))
              && code[pos..] == inner.rest[1..] && loc == Step(inner.loc, inner.rest[0]))
      decreases |code| - pos, 2
    {
      hide Lex, Advance;
      child := LexToken(c);
      if child.Some? {
        ghost var here := pos;
        var last := Get();
        if last.None? {
          child := None;
        } else {
          assert code[here..][1..] == code[pos..];
        }
      }
    }

    /** `lex`: the tokens up to the closing bracket of `delimiter`; none if the source would abort. */
    method LexToken(delimiter: char) returns (tok: Option<Token>)
      requires Valid()
      modifies this
      ensures Valid() && pos >= old(pos)
      ensures tok == Grouped(delimiter, Lex(code[old(pos)..], old(loc), Closing(delimiter)), old(loc))
      ensures tok.Some? ==> (
        code[pos..] == Lex(code[old(pos)..], old(loc), Closing(delimiter)).rest
        && loc == Lex(code[old(pos)..], old(loc), Closing(delimiter)).loc && depth == old(depth))
      decreases |code| - pos, 1
    {
      hide Lex, Advance;
      depth := depth + 1;
      var at := loc;
      var children: seq<Token> := [];
      var expected := Closing(delimiter);
      ghost var whole := Lex(code[pos..], loc, expected);
      while pos < |code|
        invariant Valid() && depth == old(depth) + 1 && pos >= old(pos)
        invariant whole == Onto(children, Lex(code[pos..], loc, expected))
        decreases |code| - pos
      {
        UnfoldEnd(code[pos..], loc, expected);
        var next := Peek();
        if next.value == ')' || next.value == ']' {
          if next.value != expected { return None; }
          break;
        }
        var ok, child := LexOne(expected);
        if !ok { return None; }
        if child.Some? {
          children := children + [child.value];
        }
      }
      UnfoldEnd(code[pos..], loc, expected);
      assert children + [] == children;
      depth := depth - 1;
      tok := Some(Group(delimiter, children, at));
    }
  }

  /** The outermost call on a whole text. */
  method LexText(text: string, loc: Location) returns (tok: Option<Token>)
    ensures tok == Grouped(NO_BRACKET, Lex(text, loc, NO_BRACKET), loc)
  {
    var lexer := new Lexer(loc, text);
    assert text[0..] == text;
    tok := lexer.LexToken(NO_BRACKET);
  }

  function Grouped(delimiter: char, l: Lexed, loc: Location): Option<Token> {
    if l.Abort? then None else Some(Group(delimiter, l.tokens, loc))
  }

  function OneMore(ok: bool, child: Option<Token>, l: Lexed): Lexed {
    if !ok then Abort else if child.None? then l else Cons(child.value, l)
  }

  /** `ts`, then what `l` says. */
  function Onto(ts: seq<Token>, l: Lexed): Lexed {
    if l.Abort? then l else Done(ts + l.tokens, l.rest, l.loc)
  }

  /** One character of a comment. */
  lemma {:induction false} CommentStep(code: string, pos: nat, depth: nat)
    requires pos <= |code| && depth > 0
    ensures CommentLength(code[pos..], depth) ==
      if pos == |code| || ((code[pos] == '#' || code[pos] == '|') && pos + 1 == |code|) then None
      else
        var d := if code[pos] == '#' || code[pos] == '|' then DepthAfter(depth, code[pos], code[pos + 1]) else depth;
        if d == 0 then Some(2) else Plus(CommentLength(code[pos + 1..], d), 1)
  {
    if pos < |code| {
      assert code[pos..][1..] == code[pos + 1..];
    }
  }

  /** One turn of the scan of a string. */
  lemma {:induction false} StringStep(code: string, p: nat)
    requires p <= |code|
    ensures var n := StringLength(code[p..]);
      && (p == |code| ==> n == None)
      && (p < |code| && code[p] == '"' ==> n == Some(1))
      && (p < |code| && code[p] == '\\' && p + 1 == |code| ==> n == None)
      && (p + 1 < |code| && code[p] == '\\' && code[p + 1] == '"' ==> n == Plus(StringLength(code[p + 2..]), 2))
      && (p + 1 < |code| && code[p] == '\\' && code[p + 1] != '"' ==> n == Plus(StringLength(code[p + 1..]), 1))
      && (p < |code| && code[p] != '"' && code[p] != '\\' ==> n == Plus(StringLength(code[p + 1..]), 1))
  {
    if p < |code| {
      assert code[p..][1..] == code[p + 1..];
      if p + 1 < |code| {
        assert code[p..][2..] == code[p + 2..];
      }
    }
  }

  lemma {:induction false} UnfoldEnd(s: string, loc: Location, closing: char)
    ensures s == [] ==> Lex(s, loc, closing) == Done([], s, loc)
    ensures s != [] && (s[0] == ')' || s[0] == ']') ==> Lex(s, loc, closing) == if s[0] == closing then Done([], s, loc)
      else Abort
  {}

  lemma {:induction false} UnfoldString(s: string, loc: Location, closing: char)
    requires s != [] && s[0] == '"'
    ensures var n := StringLength(s[1..]);
      Lex(s, loc, closing) == if n.None? then Abort
        else Cons(Value(s[..n.value + 1], loc),
          Lex(s[1..][n.value..], Advance(Step(loc, s[0]), s[1..][..n.value]), closing))
  {}

  lemma {:induction false} UnfoldLine(s: string, loc: Location, closing: char)
    requires s != [] && s[0] == ';'
    ensures var n := LineLength(s[1..]);
      Lex(s, loc, closing) == if n.None? then Abort
        else Lex(s[1..][n.value..], Advance(Step(loc, s[0]), s[1..][..n.value]), closing)
  {}

  lemma {:induction false} UnfoldHash(s: string, loc: Location, closing: char)
    requires s != [] && s[0] == '#'
    ensures s[1..] == [] ==> Lex(s, loc, closing) == Abort
    ensures s[1..] != [] && s[1] != '|' ==> Lex(s, loc, closing) == Lex(s[1..], Step(loc, s[0]), closing)
    ensures s[1..] != [] && s[1] == '|' ==> (
      var n := CommentLength(s[1..], 1);
      Lex(s, loc, closing) == if n.None? then Abort
        else Lex(s[1..][n.value..], Advance(Step(loc, s[0]), s[1..][..n.value]), closing))
  {}

  lemma {:induction false} UnfoldBracket(s: string, loc: Location, closing: char)
    requires s != [] && (s[0] == '[' || s[0] == '(')
    ensures var inner := Lex(s[1..], Step(loc, s[0]), Closing(s[0]));
      Lex(s, loc, closing) == if inner.Abort? || inner.rest == [] then Abort
        else Cons(Group(s[0], inner.tokens, Step(loc, s[0])),
          Lex(inner.rest[1..], Step(inner.loc, inner.rest[0]), closing))
  {}

  lemma {:induction false} UnfoldSpace(s: string, loc: Location, closing: char)
    requires s != [] && IsSpace(s[0])
    ensures Lex(s, loc, closing) == Lex(s[1..], Step(loc, s[0]), closing)
  {}

  lemma {:induction false} UnfoldIdentifier(s: string, loc: Location, closing: char)
    requires s != [] && IsIdentifierChar(s[0])
    requires s[0] != '"' && s[0] != ';' && s[0] != '#' && s[0] != '[' && s[0] != '(' && s[0] != ')' && s[0] != ']'
    requires !IsSpace(s[0])
    ensures var n := IdentifierLength(s[1..]);
      Lex(s, loc, closing) == if n.None? then Abort
        else Cons(Value(s[..n.value + 1], loc),
          Lex(s[1..][n.value..], Advance(Step(loc, s[0]), s[1..][..n.value]), closing))
  {
    hide IsIdentifierChar, IsSpace;
  }

  lemma {:induction false} UnfoldOther(s: string, loc: Location, closing: char)
    requires s != [] && !IsIdentifierChar(s[0])
    requires s[0] != '"' && s[0] != ';' && s[0] != '#' && s[0] != '[' && s[0] != '(' && s[0] != ')' && s[0] != ']'
    requires !IsSpace(s[0])
    ensures Lex(s, loc, closing) == Abort
  {
    hide IsIdentifierChar, IsSpace;
  }
}
