/** Pretty-printing of token trees; lexing undoes it. */
module PrettyPrint {
  import opened Lexing

  /** Printed text and its width. */
  datatype Printed = Printed(s: string, width: int)

  function Spaces(n: nat): string {
    seq(n, _ => ' ')
  }

  function Brackets(delimiter: char): (char, char) {
    if delimiter == '[' then ('[', ']') else ('(', ')')
  }

  const TAB := 2

  const NUL := '\0'

  /** What is left of a text that goes through a pointer to its characters: it ends before the first NUL. */
  function UpToNul(v: string): (s: string)
    ensures NUL !in s && (NUL !in v ==> s == v)
  {
    if v == [] || v[0] == NUL then [] else [v[0]] + UpToNul(v[1..])
  }

  function Pretty(t: Tree, indent: nat, width: int): Printed
    decreases t, 1
  {
    match t
    case Leaf(v) => Printed(UpToNul(v), |v|)
    case Branch(d, cs) =>
      var ps := PrettyAll(t, indent, width);
      var mine := 1 + Total(ps);
      var fits := mine < width - indent;
      var sep := if fits then " " else "\n" + Spaces(indent);
      Printed([Brackets(d).0] + Join(ps, sep) + [Brackets(d).1], if fits then mine else Widest(ps))
  }

  function PrettyAll(t: Tree, indent: nat, width: int): seq<Printed>
    requires t.Branch?
    decreases t, 0
  {
    seq(|t.children|, i requires 0 <= i < |t.children| => Pretty(t.children[i], indent + TAB, width))
  }

  /** The widths of the parts and of the spaces between them. */
  function Total(ps: seq<Printed>): int {
    if ps == [] then 0 else Total(ps[..|ps| - 1]) + (if |ps| == 1 then 0 else 1) + ps[|ps| - 1].width
  }

  function Widest(ps: seq<Printed>): int {
    if ps == [] then 0 else
      var w := Widest(ps[..|ps| - 1]);
      if ps[|ps| - 1].width > w then ps[|ps| - 1].width else w
  }

  function Join(ps: seq<Printed>, sep: string): string {
    if ps == [] then "" else Join(ps[..|ps| - 1], sep) + (if |ps| == 1 then "" else sep) + ps[|ps| - 1].s
  }

  /** `Token::pprint`. A leaf gives a pointer to its characters, and the width of all of them. */
  method PrettyToken(t: Tree, indent: nat, width: int) returns (ret: Printed)
    ensures ret == Pretty(t, indent, width)
  {
    hide Join;
    if t.Leaf? {
      return Printed(UpToNul(t.value), |t.value|);
    }
    var mywidth, maxwidth := 1, 0;
    var first := true;
    var strs: seq<string> := [];
    ghost var ps := PrettyAll(t, indent, width);
    for i := 0 to |t.children|
      invariant |strs| == i && forall j | 0 <= j < i :: strs[j] == ps[j].s
      invariant mywidth == 1 + Total(ps[..i]) && maxwidth == Widest(ps[..i])
      invariant first <==> i == 0
    {
      var p := PrettyToken(t.children[i], indent + TAB, width);
      assert ps[..i + 1][..i] == ps[..i];
      if p.width > maxwidth {
        maxwidth := p.width;
      }
      mywidth := mywidth + (if first then 0 else 1) + p.width;
      strs := strs + [p.s];
      first := false;
    }
    assert ps[..|ps|] == ps;
    var availableWidth := width - indent;
    var sep, w := " ", mywidth;
    if !(mywidth < availableWidth) {
      sep := "\n" + Spaces(indent);
      w := maxwidth;
    }
    var text := Assemble(strs, sep, Brackets(t.delimiter), ps);
    ret := Printed(text, w);
  }

  /** The last loop of `pprint`. */
  method Assemble(strs: seq<string>, sep: string, brackets: (char, char), ghost ps: seq<Printed>) returns (s: string)
    requires |strs| == |ps| && forall j | 0 <= j < |ps| :: strs[j] == ps[j].s
    ensures s == [brackets.0] + Join(ps, sep) + [brackets.1]
  {
    var first := true;
    s := [brackets.0];
    for i := 0 to |strs|
      invariant s == [brackets.0] + Join(ps[..i], sep)
      invariant first <==> i == 0
    {
      assert ps[..i + 1][..i] == ps[..i];
      if !first {
        s := s + sep;
      }
      s := s + strs[i];
      first := false;
    }
    assert ps[..|ps|] == ps;
    s := s + [brackets.1];
  }

  // ---------------------------------------------------------------- lexing what was printed

  lemma {:induction false} SpacesSkipped(s: string, rest: string, loc: Location, closing: char)
    requires forall i | 0 <= i < |s| :: IsSpace(s[i])
    ensures Lex(s + rest, loc, closing) == Lex(rest, Advance(loc, s), closing)
  {
    if s == [] {
      assert s + rest == rest;
    } else {
      assert (s + rest)[1..] == s[1..] + rest;
      SpacesSkipped(s[1..], rest, Step(loc, s[0]), closing);
      AdvanceMore(loc, s[..1], s[1..]);
      assert s == s[..1] + s[1..];
      assert s[..1][..0] == [];
      assert Advance(loc, s[..1]) == Step(loc, s[0]);
    }
  }

  lemma {:induction false} IdentifierScanned(v: string, rest: string)
    requires (forall i | 0 <= i < |v| :: IsIdentifierChar(v[i])) && rest != [] && !IsIdentifierChar(rest[0])
    ensures IdentifierLength(v + rest) == Some(|v|)
  {
    if v == [] {
      assert v + rest == rest;
    } else {
      assert (v + rest)[1..] == v[1..] + rest;
      IdentifierScanned(v[1..], rest);
    }
  }

  /** `v` is the part of a string behind its opening quote, or behind some of its characters. */
  lemma {:induction false} StringScanned(v: string, rest: string)
    requires |v| >= 1 && v[|v| - 1] == '"'
    requires forall i | 0 <= i < |v| - 1 && v[i] == '"' :: i > 0 && v[i - 1] == '\\'
    requires |v| >= 2 ==> v[|v| - 2] != '\\'
    ensures StringLength(v + rest) == Some(|v|)
    decreases |v|
  {
    if |v| == 1 {
      assert (v + rest)[0] == '"';
    } else if v[0] == '\\' && v[1] == '"' {
      assert (v + rest)[2..] == v[2..] + rest;
      StringScanned(v[2..], rest);
    } else {
      assert (v + rest)[1..] == v[1..] + rest;
      StringScanned(v[1..], rest);
    }
  }

  function Prepend(ts: seq<Token>, l: Lexed): Lexed {
    if l.Abort? then l else Done(ts + l.tokens, l.rest, l.loc)
  }

  /** `rest` can follow a leaf. */
  predicate Separates(rest: string) {
    rest != [] && !IsIdentifierChar(rest[0])
  }

  lemma {:induction false} LexIdentifier(v: string, rest: string, loc: Location, closing: char)
    requires IsIdentifier(v) && Separates(rest)
    ensures Lex(v + rest, loc, closing) == Cons(Value(v, loc), Lex(rest, Advance(loc, v), closing))
  {
    hide IdentifierLength, StringLength, LineLength, CommentLength, IsIdentifierChar, IsSpace, Advance;
    NotSpecial(v[0]);
    IdentifierScanned(v[1..], rest);
    LeafParts(v, rest, loc);
  }

  lemma {:induction false} NotSpecial(c: char)
    requires IsIdentifierChar(c)
    ensures c != '"' && c != ';' && c != '#' && c != '[' && c != '(' && c != ')' && c != ']' && !IsSpace(c)
  {}

  lemma {:induction false} LexString(v: string, rest: string, loc: Location, closing: char)
    requires IsString(v)
    ensures Lex(v + rest, loc, closing) == Cons(Value(v, loc), Lex(rest, Advance(loc, v), closing))
  {
    hide IdentifierLength, StringLength, LineLength, CommentLength, IsIdentifierChar, IsSpace, Advance;
    StringScanned(v[1..], rest);
    LeafParts(v, rest, loc);
  }

  lemma {:induction false} LeafParts(v: string, rest: string, loc: Location)
    requires v != []
    ensures (v + rest)[1..] == v[1..] + rest && (v + rest)[..|v|] == v
    ensures (v[1..] + rest)[|v| - 1..] == rest && (v[1..] + rest)[..|v| - 1] == v[1..]
    ensures Advance(Step(loc, v[0]), v[1..]) == Advance(loc, v)
  {
    assert v == v[..1] + v[1..];
    AdvanceMore(loc, v[..1], v[1..]);
    assert v[..1][..0] == [];
    assert Advance(loc, v[..1]) == Step(loc, v[0]);
  }

  /** An opening bracket starts a token that ends with its closing bracket. */
  lemma {:induction false} LexBracket(d: char, body: string, rest: string, loc: Location, closing: char, ts: seq<Token>,
      after: Location)
    requires d == '(' || d == '['
    requires Lex(body, Step(loc, d), Closing(d)) == Done(ts, [Closing(d)] + rest, after)
    ensures Lex([d] + body, loc, closing)
      == Cons(Group(d, ts, Step(loc, d)), Lex(rest, Step(after, Closing(d)), closing))
  {
    assert ([d] + body)[1..] == body;
    assert ([Closing(d)] + rest)[1..] == rest;
  }

  lemma {:induction false} LexStops(rest: string, loc: Location, d: char)
    requires d == '(' || d == '['
    ensures Lex([Closing(d)] + rest, loc, Closing(d)) == Done([], [Closing(d)] + rest, loc)
  {}

  /** No leaf contains a NUL. */
  predicate NoNul(t: Tree) {
    match t
    case Leaf(v) => NUL !in v
    case Branch(_, cs) => forall i | 0 <= i < |cs| :: NoNul(cs[i])
  }

  /** Lexing what was printed of a tree without NUL gives back the tree, and goes on behind it. */
  lemma {:induction false} LexPretty(t: Tree, indent: nat, width: int, rest: string, loc: Location, closing: char)
    returns (tok: Token)
    requires Lexable(t) && NoNul(t) && (t.Leaf? ==> Separates(rest))
    ensures Strip(tok) == t
    ensures Lex(Pretty(t, indent, width).s + rest, loc, closing)
      == Cons(tok, Lex(rest, Advance(loc, Pretty(t, indent, width).s), closing))
    decreases t, 1, 0
  {
    hide Lex, Join, Advance, PrettyAll, IsIdentifier, IsString, IsSpace, IsIdentifierChar, Separates, Total, Spaces,
      UpToNul;
    match t
    case Leaf(v) =>
      if IsIdentifier(v) {
        LexIdentifier(v, rest, loc, closing);
      } else {
        LexString(v, rest, loc, closing);
      }
      tok := Value(v, loc);
    case Branch(d, cs) =>
      var ps := PrettyAll(t, indent, width);
      var sep := if 1 + Total(ps) < width - indent then " " else "\n" + Spaces(indent);
      var body := Join(ps, sep);
      var close := Closing(d);
      PrettyParts(t, indent, width);
      SeparatorsAreSpaces(indent);
      ClosingSeparates(d, rest);
      assert |ps| == |cs|;
      assert ps[..|cs|] == ps;
      var ts := LexJoin(t, indent, width, |cs|, sep, [close] + rest, Step(loc, d), close);
      LexStops(rest, Advance(Step(loc, d), body), d);
      LexBracket(d, body + ([close] + rest), rest, loc, closing, ts, Advance(Step(loc, d), body));
      tok := Group(d, ts, Step(loc, d));
      assert StripAll(ts) == cs;
      BracketText(d, body, close, rest, loc);
  }

  lemma {:induction false} SeparatorsAreSpaces(indent: nat)
    ensures IsSpace(" "[0]) && forall i | 0 <= i < |"\n" + Spaces(indent)| :: IsSpace(("\n" + Spaces(indent))[i])
  {}

  lemma {:induction false} ClosingSeparates(d: char, rest: string)
    requires d == '(' || d == '['
    ensures Separates([Closing(d)] + rest)
  {}

  lemma {:induction false} PrettyParts(t: Tree, indent: nat, width: int)
    requires t.Branch?
    ensures |PrettyAll(t, indent, width)| == |t.children|
    ensures forall i | 0 <= i < |t.children| ::
      PrettyAll(t, indent, width)[i] == Pretty(t.children[i], indent + TAB, width)
  {}

  lemma {:induction false} BracketText(d: char, body: string, close: char, rest: string, loc: Location)
    ensures ([d] + body + [close]) + rest == [d] + (body + ([close] + rest))
    ensures Advance(loc, [d] + body + [close]) == Step(Advance(Step(loc, d), body), close)
  {
    AdvanceMore(loc, [d] + body, [close]);
    AdvanceMore(loc, [d], body);
    assert Advance(loc, [d]) == Step(loc, d) by { assert [d][..0] == []; }
    var x := Advance(loc, [d] + body);
    assert Advance(x, [close]) == Step(x, close) by { assert [close][..0] == []; }
  }

  lemma {:induction false} LexJoin(t: Tree, indent: nat, width: int, k: nat, sep: string, tail: string, loc: Location,
      closing: char)
    returns (ts: seq<Token>)
    requires t.Branch? && Lexable(t) && NoNul(t)
    requires k <= |t.children| == |PrettyAll(t, indent, width)| && Separates(tail)
    requires sep != [] && forall i | 0 <= i < |sep| :: IsSpace(sep[i])
    ensures |ts| == k && forall i | 0 <= i < k :: Strip(ts[i]) == t.children[i]
    ensures var body := Join(PrettyAll(t, indent, width)[..k], sep);
      Lex(body + tail, loc, closing) == Prepend(ts, Lex(tail, Advance(loc, body), closing))
    decreases t, 0, k
  {
    hide Lex, Advance, PrettyAll, Strip, Lexable, NoNul, IsSpace, Join, Pretty, Separates, Prepend, Cons;
    var ps := PrettyAll(t, indent, width);
    PrettyParts(t, indent, width);
    if k == 0 {
      ts := [];
      assert ps[..0] == [];
      JoinNone(sep);
      LexNothing(tail, loc, closing);
    } else {
      var p := ps[k - 1].s;
      var before := Join(ps[..k - 1], sep);
      var gap := if k == 1 then "" else sep;
      JoinLast(ps, k, sep);
      LexableChild(t, k - 1);
      var tail' := gap + (p + tail);
      SpaceSeparates(sep, p + tail);
      var ts';
      if k == 1 {
        ts' := [];
        assert before == [];
        LexNothing(tail', loc, closing);
      } else {
        ts' := LexJoin(t, indent, width, k - 1, sep, tail', loc, closing);
      }
      SpacesSkipped(gap, p + tail, Advance(loc, before), closing);
      var l := Advance(Advance(loc, before), gap);
      var tok := LexPretty(t.children[k - 1], indent + TAB, width, tail, l, closing);
      ts := ts' + [tok];
      JoinText(before, gap, p, tail, loc);
      PrependCons(ts', tok, Lex(tail, Advance(l, p), closing));
    }
  }

  lemma {:induction false} JoinNone(sep: string)
    ensures Join([], sep) == []
  {}

  lemma {:induction false} JoinLast(ps: seq<Printed>, k: nat, sep: string)
    requires 0 < k <= |ps|
    ensures Join(ps[..k], sep) == Join(ps[..k - 1], sep) + (if k == 1 then "" else sep) + ps[k - 1].s
    ensures k == 1 ==> Join(ps[..k - 1], sep) == []
  {
    assert ps[..k][..k - 1] == ps[..k - 1];
  }

  lemma {:induction false} JoinText(before: string, gap: string, p: string, tail: string, loc: Location)
    ensures (before + gap + p) + tail == before + (gap + (p + tail))
    ensures Advance(loc, before + gap + p) == Advance(Advance(Advance(loc, before), gap), p)
  {
    AdvanceMore(loc, before, gap);
    AdvanceMore(loc, before + gap, p);
  }

  lemma {:induction false} LexNothing(tail: string, loc: Location, closing: char)
    ensures [] + tail == tail && Advance(loc, []) == loc
      && Prepend([], Lex(tail, loc, closing)) == Lex(tail, loc, closing)
  {
    hide Lex;
  }

  lemma {:induction false} LexableChild(t: Tree, i: nat)
    requires t.Branch? && Lexable(t) && i < |t.children|
    ensures Lexable(t.children[i]) && (NoNul(t) ==> NoNul(t.children[i]))
  {}

  lemma {:induction false} SpaceSeparates(sep: string, s: string)
    requires sep != [] && forall i | 0 <= i < |sep| :: IsSpace(sep[i])
    ensures Separates(sep + s)
  {}

  lemma {:induction false} PrependCons(ts: seq<Token>, t: Token, l: Lexed)
    ensures Prepend(ts, Cons(t, l)) == Prepend(ts + [t], l)
  {}

  /** Lexing what was printed gives the root with one child: the tree, up to locations. */
  ghost predicate LexesBack(t: Tree, indent: nat, width: int, loc: Location) {
    var l := Lex(Pretty(t, indent, width).s, loc, NO_BRACKET);
    l.Done? && l.rest == [] && StripAll(l.tokens) == [t]
  }

  /** Printing and lexing gives the tree back exactly if it contains no NUL, at which the printed text of a leaf
      would end, and is not a bare identifier, which the end of the file makes an error. */
  lemma {:induction false} LexUndoesPretty(t: Tree, indent: nat, width: int, loc: Location)
    requires Lexable(t)
    ensures LexesBack(t, indent, width, loc) <==> (t.Branch? || IsString(t.value)) && NoNul(t)
  {
    hide Lex, Strip, IsIdentifier, IsString, PrettyAll, Join, Spaces, NoNul, UpToNul;
    var s := Pretty(t, indent, width).s;
    assert s + "" == s;
    LexEmpty(Advance(loc, s));
    if !NoNul(t) {
      if LexesBack(t, indent, width, loc) {
        BackWithoutNul(t, indent, width, loc);
        assert false;
      }
    } else if t.Branch? {
      var tok := LexPretty(t, indent, width, "", loc, NO_BRACKET);
      assert StripAll([tok]) == [t];
    } else {
      LeafPrinted(t);
      if IsString(t.value) {
        LexString(t.value, "", loc, NO_BRACKET);
        StripValue(t.value, loc);
        assert StripAll([Value(t.value, loc)]) == [t];
      } else {
        IdentifierAborts(t.value, loc);
      }
    }
  }

  lemma {:induction false} LeafPrinted(t: Tree)
    requires t.Leaf? && NoNul(t)
    ensures UpToNul(t.value) == t.value
  {}

  /** A tree with a NUL in it does not survive: the printed leaf `"\0"` is a lone quote. */
  lemma {:induction false} NulIsLost(indent: nat, width: int, loc: Location)
    ensures var t := Leaf(['"', NUL, '"']);
      && Lexable(t) && Pretty(t, indent, width) == Printed("\"", 3)
      && !LexesBack(t, indent, width, loc) && !LexesBack(Branch('(', [t]), indent, width, loc)
  {
    hide Lex, LexesBack;
    var v := ['"', NUL, '"'];
    var t := Leaf(v);
    assert v[1..][0] == NUL && UpToNul(v[1..]) == [];
    assert NUL in v && !NoNul(t) && !NoNul(Branch('(', [t])) by { assert v[1] == NUL && [t][0] == t; }
    LexUndoesPretty(t, indent, width, loc);
    LexUndoesPretty(Branch('(', [t]), indent, width, loc);
  }

  // ---------------------------------------------------------------- nothing printed or read without NUL contains one

  lemma {:induction false} BackWithoutNul(t: Tree, indent: nat, width: int, loc: Location)
    requires LexesBack(t, indent, width, loc)
    ensures NoNul(t)
  {
    hide Lex, Pretty, Strip, NoNul;
    PrintedWithoutNul(t, indent, width);
    LexWithoutNul(Pretty(t, indent, width).s, loc, NO_BRACKET);
    var l := Lex(Pretty(t, indent, width).s, loc, NO_BRACKET);
    assert StripAll(l.tokens)[0] == t;
    assert NoNul(Strip(l.tokens[0]));
  }

  lemma {:induction false} PrintedWithoutNul(t: Tree, indent: nat, width: int)
    ensures NUL !in Pretty(t, indent, width).s
    decreases t
  {
    hide Join, UpToNul, Total, Widest, PrettyAll;
    if t.Branch? {
      var ps := PrettyAll(t, indent, width);
      PrettyParts(t, indent, width);
      forall i | 0 <= i < |ps| ensures NUL !in ps[i].s {
        PrintedWithoutNul(t.children[i], indent + TAB, width);
      }
      JoinWithoutNul(ps, " ");
      JoinWithoutNul(ps, "\n" + Spaces(indent));
    }
  }

  lemma {:induction false} JoinWithoutNul(ps: seq<Printed>, sep: string)
    requires NUL !in sep && forall i | 0 <= i < |ps| :: NUL !in ps[i].s
    ensures NUL !in Join(ps, sep)
  {
    if ps != [] {
      JoinWithoutNul(ps[..|ps| - 1], sep);
    }
  }

  ghost predicate TokensWithoutNul(l: Lexed) {
    l.Done? ==> NUL !in l.rest && forall i | 0 <= i < |l.tokens| :: NoNul(Strip(l.tokens[i]))
  }

  lemma {:induction false} ConsWithoutNul(t: Token, l: Lexed)
    requires NoNul(Strip(t)) && TokensWithoutNul(l)
    ensures TokensWithoutNul(Cons(t, l))
  {
    hide NoNul, Strip;
  }

  lemma {:induction false} GroupWithoutNul(c: char, l: Lexed, loc: Location)
    requires l.Done? && TokensWithoutNul(l)
    ensures NoNul(Strip(Group(c, l.tokens, loc)))
  {}

  lemma {:induction false} ValueWithoutNul(s: string, n: nat, loc: Location)
    requires NUL !in s && n <= |s|
    ensures NoNul(Strip(Value(s[..n], loc)))
  {}

  lemma {:induction false} NoneWithoutNul(s: string, loc: Location)
    requires NUL !in s
    ensures TokensWithoutNul(Done([], s, loc)) && TokensWithoutNul(Abort)
  {}

  lemma {:induction false} RestWithoutNul(l: Lexed)
    requires TokensWithoutNul(l) && l.Done?
    ensures NUL !in l.rest
  {}

  /** Every value that the lexer returns is a piece of its text. */
  lemma {:induction false} LexWithoutNul(s: string, loc: Location, closing: char)
    requires NUL !in s
    ensures TokensWithoutNul(Lex(s, loc, closing))
    decreases |s|, 1
  {
    hide TokensWithoutNul, NoNul, Strip, StringLength, LineLength, CommentLength, IdentifierLength, IsSpace,
      IsIdentifierChar, Advance, Cons;
    NoneWithoutNul(s, loc);
    if s != [] && s[0] != ')' && s[0] != ']' {
      var s', after := s[1..], Step(loc, s[0]);
      if s[0] == '"' {
        ScannedWithoutNul(s, StringLength(s'), loc, closing, true);
      } else if s[0] == ';' {
        ScannedWithoutNul(s, LineLength(s'), loc, closing, false);
      } else if s[0] == '#' {
        LexWithoutNul(s', after, closing);
        ScannedWithoutNul(s, CommentLength(s', 1), loc, closing, false);
      } else if s[0] == '[' || s[0] == '(' {
        var inner := Lex(s', after, Closing(s[0]));
        LexWithoutNul(s', after, Closing(s[0]));
        if inner.Done? && inner.rest != [] {
          RestWithoutNul(inner);
          GroupWithoutNul(s[0], inner, after);
          LexWithoutNul(inner.rest[1..], Step(inner.loc, inner.rest[0]), closing);
          ConsWithoutNul(Group(s[0], inner.tokens, after),
            Lex(inner.rest[1..], Step(inner.loc, inner.rest[0]), closing));
        }
      } else if IsSpace(s[0]) {
        LexWithoutNul(s', after, closing);
      } else if IsIdentifierChar(s[0]) {
        ScannedWithoutNul(s, IdentifierLength(s'), loc, closing, true);
      }
    }
  }

  /** What follows a scan over `n` characters, after the token it makes or after a comment. */
  lemma {:induction false} ScannedWithoutNul(s: string, n: Option<nat>, loc: Location, closing: char, token: bool)
    requires NUL !in s && s != [] && (n.Some? ==> n.value < |s|)
    ensures n.Some? ==>
      var l := Lex(s[1..][n.value..], Advance(Step(loc, s[0]), s[1..][..n.value]), closing);
      TokensWithoutNul(if token then Cons(Value(s[..n.value + 1], loc), l) else l)
    decreases |s|, 0
  {
    hide TokensWithoutNul, NoNul, Strip, Lex, Cons, Advance;
    if n.Some? {
      var rest, at := s[1..][n.value..], Advance(Step(loc, s[0]), s[1..][..n.value]);
      LexWithoutNul(rest, at, closing);
      ValueWithoutNul(s, n.value + 1, loc);
      if token {
        ConsWithoutNul(Value(s[..n.value + 1], loc), Lex(rest, at, closing));
      }
    }
  }

  lemma {:induction false} StripValue(v: string, loc: Location)
    ensures Strip(Value(v, loc)) == Leaf(v)
  {}

  lemma {:induction false} IdentifierAborts(v: string, loc: Location)
    requires IsIdentifier(v)
    ensures Lex(v, loc, NO_BRACKET) == Abort
  {
    hide IdentifierLength, StringLength, LineLength, CommentLength, IsIdentifierChar, IsSpace, Advance;
    NotSpecial(v[0]);
    IdentifierEnds(v[1..]);
  }

  lemma {:induction false} IdentifierEnds(v: string)
    requires forall i | 0 <= i < |v| :: IsIdentifierChar(v[i])
    ensures IdentifierLength(v) == None
  {
    hide IsIdentifierChar;
    if v != [] {
      IdentifierEnds(v[1..]);
    }
  }

  lemma {:induction false} LexEmpty(loc: Location)
    ensures Lex("", loc, NO_BRACKET) == Done([], "", loc)
  {}
}
