/** What the lexer skips, reads and refuses, said of texts and not of the scans: comments are white space, nested ones
    included, and every character has its class. */
module LexerLaws {
  import opened Lexing
  import opened PrettyPrint

  // ---------------------------------------------------------------- comments to the end of the line

  lemma {:induction false} LineScanned(line: string, s: string)
    requires '\n' !in line
    ensures LineLength(line + "\n" + s) == Some(|line| + 1)
  {
    if line == [] {
      assert line + "\n" + s == "\n" + s;
    } else {
      assert (line + "\n" + s)[1..] == line[1..] + "\n" + s;
      LineScanned(line[1..], s);
    }
  }

  lemma {:induction false} LineUnended(line: string)
    requires '\n' !in line
    ensures LineLength(line) == None
  {
    if line != [] {
      LineUnended(line[1..]);
    }
  }

  /** A comment to the end of the line is white space: whatever it contains. */
  lemma {:induction false} LineCommentIsSkipped(line: string, s: string, loc: Location, closing: char)
    requires '\n' !in line
    ensures Lex(";" + line + "\n" + s, loc, closing) == Lex(s, Advance(loc, ";" + line + "\n"), closing)
  {
    hide LineLength, Advance, IsSpace, IsIdentifierChar;
    var v := ";" + line + "\n";
    LineScanned(line, s);
    assert v[1..] + s == line + "\n" + s;
    LeafParts(v, s, loc);
  }

  /** Without a line end it is an error. */
  lemma {:induction false} LineCommentMustEnd(line: string, loc: Location, closing: char)
    requires '\n' !in line
    ensures Lex(";" + line, loc, closing) == Abort
  {
    hide LineLength, Advance, IsSpace, IsIdentifierChar;
    LineUnended(line);
    assert (";" + line)[1..] == line;
  }

  // ---------------------------------------------------------------- nested comments

  /** A comment in brackets: text, then comments inside it, each with text behind it. */
  datatype Comment = Comment(first: string, more: More)

  datatype More = End | Nested(inner: Comment, after: string, more: More)

  function Written(c: Comment): string
    decreases c, 1
  {
    "#|" + Inner(c) + "|#"
  }

  function Inner(c: Comment): string
    decreases c, 0
  {
    c.first + WrittenMore(c.more)
  }

  function WrittenMore(m: More): string
    decreases m, 0
  {
    if m.End? then "" else Written(m.inner) + m.after + WrittenMore(m.more)
  }

  predicate IsMark(c: char) {
    c == '#' || c == '|'
  }

  predicate PairAt(s: string, i: nat, first: char, second: char)
    requires i + 1 < |s|
  {
    s[i] == first && s[i + 1] == second
  }

  /** Some text in which no comment starts or ends, not even together with a mark beside it. */
  predicate Plain(p: string) {
    && p != [] && !IsMark(p[0]) && !IsMark(p[|p| - 1])
    && forall i | 0 <= i < |p| - 1 :: !PairAt(p, i, '#', '|') && !PairAt(p, i, '|', '#')
  }

  predicate IsComment(c: Comment) {
    (Plain(c.first) || (c.first == "" && c.more.End?)) && PlainMore(c.more)
  }

  predicate PlainMore(m: More) {
    m.End? || (IsComment(m.inner) && Plain(m.after) && PlainMore(m.more))
  }

  lemma {:induction false} PlainScanned(p: string, rest: string, depth: nat)
    requires depth > 0 && p != [] && !IsMark(p[|p| - 1])
    requires forall i | 0 <= i < |p| - 1 :: !PairAt(p, i, '#', '|') && !PairAt(p, i, '|', '#')
    ensures CommentLength(p + rest, depth) == Plus(CommentLength(rest, depth), |p|)
  {
    assert (p + rest)[1..] == p[1..] + rest;
    if |p| == 1 {
      assert p[1..] + rest == rest;
    } else {
      assert !PairAt(p, 0, '#', '|') && !PairAt(p, 0, '|', '#') && (p + rest)[1] == p[1];
      forall i | 0 <= i < |p[1..]| - 1 ensures !PairAt(p[1..], i, '#', '|') && !PairAt(p[1..], i, '|', '#') {
        assert !PairAt(p, i + 1, '#', '|') && !PairAt(p, i + 1, '|', '#');
      }
      PlainScanned(p[1..], rest, depth);
    }
  }

  /** Two marks, of which the second does not belong to another pair. */
  lemma {:induction false} MarksScanned(rest: string, depth: nat)
    requires depth > 0 && rest != []
    ensures rest[0] != '#' ==> CommentLength("#|" + rest, depth) == Plus(CommentLength(rest, depth + 1), 2)
    ensures rest[0] != '|' && depth > 1 ==> CommentLength("|#" + rest, depth) == Plus(CommentLength(rest, depth - 1), 2)
    ensures rest[0] != '#' ==> CommentLength("|" + rest, depth) == Plus(CommentLength(rest, depth), 1)
    ensures CommentLength("|#" + rest, 1) == Some(2)
  {
    assert ("#|" + rest)[1..] == "|" + rest && ("|" + rest)[1..] == rest;
    assert ("|#" + rest)[1..] == "#" + rest && ("#" + rest)[1..] == rest;
  }

  /** A comment inside a comment is passed over. */
  lemma {:induction false} NestedScanned(c: Comment, rest: string, depth: nat)
    requires depth > 0 && IsComment(c) && rest != [] && !IsMark(rest[0])
    ensures CommentLength(Written(c) + rest, depth) == Plus(CommentLength(rest, depth), |Written(c)|)
    decreases c, 1
  {
    hide CommentLength, Plain, PlainMore;
    InnerScanned(c, "|#" + rest, depth + 1);
    MarksScanned(Inner(c) + ("|#" + rest), depth);
    MarksScanned(rest, depth + 1);
    assert Written(c) + rest == "#|" + (Inner(c) + ("|#" + rest));
  }

  /** What is inside a comment leaves the depth as it is. */
  lemma {:induction false} InnerScanned(c: Comment, rest: string, depth: nat)
    requires depth > 0 && IsComment(c)
    ensures CommentLength(Inner(c) + rest, depth) == Plus(CommentLength(rest, depth), |Inner(c)|)
    ensures Inner(c) != [] ==> !IsMark(Inner(c)[0])
    decreases c, 0
  {
    hide CommentLength;
    if c.first == "" {
      assert Inner(c) + rest == rest;
    } else {
      assert Inner(c) + rest == c.first + (WrittenMore(c.more) + rest);
      PlainScanned(c.first, WrittenMore(c.more) + rest, depth);
      MoreScanned(c.more, rest, depth);
    }
  }

  lemma {:induction false} MoreScanned(m: More, rest: string, depth: nat)
    requires depth > 0 && PlainMore(m)
    ensures CommentLength(WrittenMore(m) + rest, depth) == Plus(CommentLength(rest, depth), |WrittenMore(m)|)
    decreases m, 0
  {
    hide CommentLength, Written;
    if m.End? {
      assert WrittenMore(m) + rest == rest;
    } else {
      var tail := WrittenMore(m.more) + rest;
      assert WrittenMore(m) + rest == Written(m.inner) + (m.after + tail);
      NestedScanned(m.inner, m.after + tail, depth);
      PlainScanned(m.after, tail, depth);
      MoreScanned(m.more, rest, depth);
    }
  }

  /** A comment in brackets is white space, with all the comments inside it. */
  lemma {:induction false} CommentIsSkipped(c: Comment, s: string, loc: Location, closing: char)
    requires IsComment(c)
    ensures Lex(Written(c) + s, loc, closing) == Lex(s, Advance(loc, Written(c)), closing)
  {
    hide CommentLength, Advance, IsSpace, IsIdentifierChar, IsComment, Inner;
    var v := Written(c);
    InnerScanned(c, "|#" + s, 1);
    MarksScanned(Inner(c) + ("|#" + s), 1);
    LastMarks(s);
    assert v[1..] + s == "|" + (Inner(c) + ("|#" + s));
    LeafParts(v, s, loc);
  }

  lemma {:induction false} LastMarks(s: string)
    ensures CommentLength("|#" + s, 1) == Some(2)
  {}

  /** Without closing marks it is an error. */
  lemma {:induction false} CommentMustEnd(s: string, loc: Location, closing: char)
    requires forall i | 0 <= i < |s| - 1 :: !PairAt(s, i, '|', '#')
    requires s != [] ==> s[0] != '#'
    ensures Lex("#|" + s, loc, closing) == Abort
  {
    hide CommentLength, Advance, IsSpace, IsIdentifierChar;
    assert ("#|" + s)[1..] == "|" + s;
    forall i | 0 <= i < |"|" + s| - 1 ensures !PairAt("|" + s, i, '|', '#') {
      assert i > 0 ==> !PairAt(s, i - 1, '|', '#');
    }
    CommentUnended("|" + s, 1);
  }

  lemma {:induction false} CommentUnended(s: string, depth: nat)
    requires depth > 0 && forall i | 0 <= i < |s| - 1 :: !PairAt(s, i, '|', '#')
    ensures CommentLength(s, depth) == None
    decreases |s|
  {
    if s != [] {
      forall i | 0 <= i < |s[1..]| - 1 ensures !PairAt(s[1..], i, '|', '#') {
        assert !PairAt(s, i + 1, '|', '#');
      }
      if |s| > 1 {
        assert !PairAt(s, 0, '|', '#');
        CommentUnended(s[1..], if s[0] == '#' && s[1] == '|' then depth + 1 else depth);
      }
      CommentUnended(s[1..], depth);
    }
  }

  // ---------------------------------------------------------------- characters

  /** The characters of identifiers. */
  lemma {:induction false} IdentifierCharacters(c: char)
    ensures IsIdentifierChar(c) <==>
      'a' <= c <= 'z' || 'A' <= c <= 'Z' || '0' <= c <= '9' || c in "!@$%^&*{}:.,<>?/'|=+-_~`"
  {}

  /** Blanks make no token, nor does a `#` without a bar. */
  lemma {:induction false} BlankIsSkipped(c: char, s: string, loc: Location, closing: char)
    requires c in "\n\t \U{c2}\r" || (c == '#' && s != [] && s[0] != '|')
    ensures Lex([c] + s, loc, closing) == Lex(s, if c == '\n' then Location(loc.line + 1, 1)
      else Location(loc.line, loc.column + 1), closing)
  {
    hide IsIdentifierChar, StringLength, LineLength, CommentLength, IdentifierLength, Advance;
    assert ([c] + s)[1..] == s && ([c] + s)[0] == c;
  }

  /** What the lexer refuses: a character of no class, a lone `#` at the end, a closing bracket that is not the
      expected one. */
  lemma {:induction false} Refused(c: char, s: string, loc: Location, closing: char)
    requires (!IsIdentifierChar(c) && c !in "\"();#[]" && c !in "\n\t \U{c2}\r") || (c == '#' && s == [])
      || ((c == ')' || c == ']') && c != closing)
    ensures Lex([c] + s, loc, closing) == Abort
  {
    assert ([c] + s)[1..] == s;
  }

  /** An opening bracket without its closing one is refused. */
  lemma {:induction false} BracketMustEnd(c: char, s: string, loc: Location, closing: char)
    requires c == '(' || c == '['
    requires var l := Lex(s, Location(loc.line, loc.column + 1), if c == '(' then ')' else ']'); l.Done? ==>
      l.rest == []
    ensures Lex([c] + s, loc, closing) == Abort
  {
    assert ([c] + s)[1..] == s;
  }

  /** Lines are counted by their ends, columns from one behind the last of them. */
  lemma {:induction false} Located(loc: Location, s: string, line: string)
    requires '\n' !in line
    ensures Advance(loc, line) == Location(loc.line, loc.column + |line|)
    ensures Advance(loc, s + "\n" + line) == Location(loc.line + multiset(s)['\n'] + 1, 1 + |line|)
  {
    InLine(loc, line);
    LinesCounted(loc, s);
    AdvanceMore(loc, s + "\n", line);
    assert (s + "\n")[..|s|] == s;
    InLine(Advance(loc, s + "\n"), line);
  }

  lemma {:induction false} InLine(loc: Location, line: string)
    requires '\n' !in line
    ensures Advance(loc, line) == Location(loc.line, loc.column + |line|)
  {
    if line != [] {
      InLine(loc, line[..|line| - 1]);
    }
  }

  lemma {:induction false} LinesCounted(loc: Location, s: string)
    ensures Advance(loc, s).line == loc.line + multiset(s)['\n']
  {
    if s != [] {
      LinesCounted(loc, s[..|s| - 1]);
      assert s == s[..|s| - 1] + [s[|s| - 1]];
    }
  }

  /** Exactly the strings in quotes are read as one token: with no quote inside but behind a backslash, and none before
      the last. */
  lemma {:induction false} StringsAreRead(v: string)
    requires v != [] && v[0] == '"'
    ensures IsString(v) <==> StringLength(v[1..]) == Some(|v| - 1)
  {
    if IsString(v) {
      StringScanned(v[1..], "");
      assert v[1..] + "" == v[1..];
    }
    if StringLength(v[1..]) == Some(|v| - 1) {
      ReadIsString(v[1..]);
      forall i | 1 <= i < |v| - 1 && v[i] == '"' ensures v[i - 1] == '\\' {
        assert v[1..][i - 1] == '"';
      }
      assert |v| >= 3 ==> v[1..][|v| - 3] == v[|v| - 2];
    }
  }

  lemma {:induction false} ReadIsString(v: string)
    requires StringLength(v) == Some(|v|)
    ensures |v| >= 1 && v[|v| - 1] == '"' && (|v| >= 2 ==> v[|v| - 2] != '\\')
    ensures forall i | 0 <= i < |v| - 1 && v[i] == '"' :: i > 0 && v[i - 1] == '\\'
    decreases |v|
  {
    if v[0] == '\\' && v[1] == '"' {
      ReadIsString(v[2..]);
      assert forall i | 2 <= i < |v| :: v[i] == v[2..][i - 2];
    } else if v[0] != '"' {
      ReadIsString(v[1..]);
      assert forall i | 1 <= i < |v| :: v[i] == v[1..][i - 1];
    }
  }

  lemma {:induction false} ExampleBody()
    ensures Lex("a ; b\n)", Location(1, 2), ')') == Done([Value("a", Location(1, 2))], ")", Location(2, 1))
  {
    hide Lex, IsIdentifierChar, IsSpace, Advance;
    var at := Location(1, 2);
    assert "a ; b\n)" == "a" + " ; b\n)" && " ; b\n)" == [' '] + "; b\n)" && "; b\n)" == ";" + " b" + "\n" + ")";
    SeparatedByBlank("; b\n)");
    InLine(at, "a");
    LexIdentifier("a", " ; b\n)", at, ')');
    BlankIsSkipped(' ', "; b\n)", Location(1, 3), ')');
    Located(Location(1, 4), "; b", "");
    assert "; b" + "\n" + "" == ";" + " b" + "\n" && multiset("; b")['\n'] == 0;
    LineCommentIsSkipped(" b", ")", Location(1, 4), ')');
    LexStops("", Location(2, 1), '(');
    assert [')'] + "" == ")";
  }

  /** A token, a blank, a comment and a bracket, with the locations where tokens start; that of a token in brackets is
      behind its opening bracket. */
  lemma {:induction false} ExampleTokens()
    ensures Lex("(a ; b\n)", Location(1, 1), NO_BRACKET)
      == Done([Group('(', [Value("a", Location(1, 2))], Location(1, 2))], "", Location(2, 2))
  {
    hide Lex, Advance;
    ExampleBody();
    assert "(a ; b\n)" == ['('] + "a ; b\n)" && ")" == [')'] + "";
    LexBracket('(', "a ; b\n)", "", Location(1, 1), NO_BRACKET, [Value("a", Location(1, 2))], Location(2, 1));
    LexEmpty(Location(2, 2));
  }

  lemma {:induction false} SeparatedByBlank(s: string)
    ensures Separates([' '] + s) && IsIdentifier("a")
  {
    IdentifierCharacters('a');
    IdentifierCharacters(' ');
  }
}
