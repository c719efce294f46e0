/** Which layout the pretty-printer chooses: a tree whose parts fit into the width left to them is printed on one
    line, and a branch that does not fit has its children below each other. */
module PrettyLayout {
  import opened Lexing
  import opened PrettyPrint

  /** A tree on one line. */
  function OnOneLine(t: Tree): string
    decreases t, 1, 0
  {
    match t
    case Leaf(v) => v
    case Branch(d, cs) => (if d == '[' then "[" else "(") + InARow(t, |cs|, " ") + (if d == '[' then "]" else ")")
  }

  /** The first `k` children of a branch, each on one line. */
  function InARow(t: Tree, k: nat, sep: string): string
    requires t.Branch? && k <= |t.children|
    decreases t, 0, k
  {
    if k == 0 then "" else if k == 1 then OnOneLine(t.children[0])
    else InARow(t, k - 1, sep) + sep + OnOneLine(t.children[k - 1])
  }

  /** The branches among the first `k` children and in them. */
  function BranchesIn(t: Tree, k: nat): nat
    requires t.Branch? && k <= |t.children|
    decreases t, 0, k
  {
    if k == 0 then 0 else BranchesIn(t, k - 1) + Branches(t.children[k - 1])
  }

  function Branches(t: Tree): nat
    decreases t, 1, 0
  {
    if t.Leaf? then 0 else 1 + BranchesIn(t, |t.children|)
  }

  /** The width as the source counts it: of the two brackets of a branch only one. */
  function LineWidth(t: Tree): int {
    |OnOneLine(t)| - Branches(t)
  }

  /** Every branch fits into what is left of the width where it stands: two columns less at every level. */
  ghost predicate AllFit(t: Tree, indent: nat, width: int)
    decreases t
  {
    t.Branch? ==> LineWidth(t) < width - indent && forall i | 0 <= i < |t.children| ::
      AllFit(t.children[i], indent + 2, width)
  }

  lemma {:induction false} RowParts(t: Tree, indent: nat, width: int, k: nat, sep: string)
    requires t.Branch? && k <= |t.children| == |PrettyAll(t, indent, width)|
    requires forall i | 0 <= i < |t.children| ::
      PrettyAll(t, indent, width)[i] == Printed(OnOneLine(t.children[i]), LineWidth(t.children[i]))
    ensures Join(PrettyAll(t, indent, width)[..k], sep) == InARow(t, k, sep)
    ensures 1 + Total(PrettyAll(t, indent, width)[..k]) == 1 + |InARow(t, k, " ")| - BranchesIn(t, k)
    decreases k
  {
    hide PrettyAll, OnOneLine, Branches;
    var ps := PrettyAll(t, indent, width);
    if k > 0 {
      RowParts(t, indent, width, k - 1, sep);
      assert ps[..k][..k - 1] == ps[..k - 1];
      assert ps[..k][k - 1] == ps[k - 1];
    }
  }

  lemma {:induction false} LineWidthIs(t: Tree)
    requires t.Branch?
    ensures LineWidth(t) == 1 + |InARow(t, |t.children|, " ")| - BranchesIn(t, |t.children|)
  {
    hide InARow, BranchesIn;
  }

  lemma {:induction false} ChildrenOnOneLine(t: Tree, indent: nat, width: int)
    requires t.Branch? && NoNul(t) && forall i | 0 <= i < |t.children| :: AllFit(t.children[i], indent + 2, width)
    ensures |PrettyAll(t, indent, width)| == |t.children|
    ensures forall i | 0 <= i < |t.children| ::
      PrettyAll(t, indent, width)[i] == Printed(OnOneLine(t.children[i]), LineWidth(t.children[i]))
    decreases t, 0
  {
    hide AllFit, Pretty, PrettyAll;
    PrettyParts(t, indent, width);
    forall i | 0 <= i < |t.children|
      ensures PrettyAll(t, indent, width)[i] == Printed(OnOneLine(t.children[i]), LineWidth(t.children[i])) {
      FittingIsOnOneLine(t.children[i], indent + 2, width);
    }
  }

  /** If all branches fit, the tree is printed on one line. */
  lemma {:induction false} FittingIsOnOneLine(t: Tree, indent: nat, width: int)
    requires NoNul(t) && AllFit(t, indent, width)
    ensures Pretty(t, indent, width) == Printed(OnOneLine(t), LineWidth(t))
    decreases t, 1
  {
    hide PrettyAll, Join, Total, Widest, InARow, BranchesIn;
    if t.Leaf? {
      LeafPrinted(t);
    } else {
      var ps := PrettyAll(t, indent, width);
      ChildrenOnOneLine(t, indent, width);
      RowParts(t, indent, width, |ps|, " ");
      assert ps[..|ps|] == ps;
      LineWidthIs(t);
    }
  }

  /** A branch that does not fit, although its children do, has them below each other, indented like itself. */
  lemma {:induction false} WideIsBroken(t: Tree, indent: nat, width: int)
    requires t.Branch? && NoNul(t) && LineWidth(t) >= width - indent
    requires forall i | 0 <= i < |t.children| :: AllFit(t.children[i], indent + 2, width)
    ensures Pretty(t, indent, width).s == (if t.delimiter == '[' then "[" else "(")
      + InARow(t, |t.children|, "\n" + seq(indent, _ => ' ')) + (if t.delimiter == '[' then "]" else ")")
    ensures forall i | 0 <= i < |t.children| :: Pretty(t, indent, width).width >= LineWidth(t.children[i])
    ensures Pretty(t, indent, width).width == 0
      || exists i :: 0 <= i < |t.children| && Pretty(t, indent, width).width == LineWidth(t.children[i])
  {
    hide PrettyAll, Join, Total, Widest, InARow, BranchesIn;
    var ps := PrettyAll(t, indent, width);
    ChildrenOnOneLine(t, indent, width);
    RowParts(t, indent, width, |ps|, "\n" + Spaces(indent));
    assert ps[..|ps|] == ps;
    assert Spaces(indent) == seq(indent, _ => ' ');
    LineWidthIs(t);
    WidestIs(ps);
  }

  lemma {:induction false} WidestIs(ps: seq<Printed>)
    ensures forall i | 0 <= i < |ps| :: Widest(ps) >= ps[i].width
    ensures Widest(ps) == 0 || exists i :: 0 <= i < |ps| && Widest(ps) == ps[i].width
  {
    if ps != [] {
      var init := ps[..|ps| - 1];
      WidestIs(init);
      assert forall i | 0 <= i < |init| :: init[i] == ps[i];
    }
  }

  // ---------------------------------------------------------------- narrow trees

  /** No more than `depth` levels of branches below the outermost. */
  predicate NestedAtMost(t: Tree, depth: nat) {
    t.Branch? ==> forall i | 0 <= i < |t.children| ::
      t.children[i].Branch? ==> depth > 0 && NestedAtMost(t.children[i], depth - 1)
  }

  lemma {:induction false} LineWidthAtLeast(t: Tree)
    ensures |OnOneLine(t)| >= 2 * Branches(t) && LineWidth(t) >= Branches(t)
    decreases t, 1, 0
  {
    if t.Branch? {
      RowAtLeast(t, |t.children|);
    }
  }

  lemma {:induction false} RowAtLeast(t: Tree, k: nat)
    requires t.Branch? && k <= |t.children|
    ensures |InARow(t, k, " ")| >= 2 * BranchesIn(t, k)
    ensures forall i | 0 <= i < k :: LineWidth(t.children[i]) <= |InARow(t, k, " ")| - BranchesIn(t, k)
    decreases t, 0, k
  {
    hide OnOneLine, Branches;
    if k > 0 {
      RowAtLeast(t, k - 1);
      LineWidthAtLeast(t.children[k - 1]);
    }
  }

  /** A tree that is narrower than the available width, by two columns for every level of branches inside it, is printed
      on one line. */
  lemma {:induction false} NarrowFits(t: Tree, depth: nat, indent: nat, width: int)
    requires NestedAtMost(t, depth) && LineWidth(t) + 2 * depth < width - indent
    ensures AllFit(t, indent, width)
    decreases t
  {
    hide LineWidth;
    if t.Branch? {
      LineWidthIs(t);
      RowAtLeast(t, |t.children|);
      forall i | 0 <= i < |t.children| ensures AllFit(t.children[i], indent + 2, width) {
        if t.children[i].Branch? {
          NarrowFits(t.children[i], depth - 1, indent + 2, width);
        }
      }
    }
  }

  lemma {:induction false} NarrowIsOnOneLine(t: Tree, depth: nat, indent: nat, width: int)
    requires NoNul(t) && NestedAtMost(t, depth) && LineWidth(t) + 2 * depth < width - indent
    ensures Pretty(t, indent, width) == Printed(OnOneLine(t), LineWidth(t))
  {
    hide Pretty, LineWidth, AllFit;
    NarrowFits(t, depth, indent, width);
    FittingIsOnOneLine(t, indent, width);
  }

  /** The two columns matter: the inner list is broken although the whole would fit into six columns. */
  lemma {:induction false} NarrowMayBreak()
    ensures var inner := Branch('(', [Leaf("a"), Leaf("b")]); var t := Branch('(', [inner]);
      && OnOneLine(t) == "((a b))" && LineWidth(t) == 5
      && Pretty(t, 0, 6).s == "((a\n  b))" && Pretty(t, 0, 8).s == "((a b))"
  {
    hide Pretty, PrettyAll, OnOneLine, InARow;
    var inner := Branch('(', [Leaf("a"), Leaf("b")]);
    var t := Branch('(', [inner]);
    InnerList(inner);
    OuterList(t, inner);
    assert NoNul(t) && NestedAtMost(t, 1) by { hide LineWidth, Branches; }
    NarrowIsOnOneLine(t, 1, 0, 8);
  }

  lemma {:induction false} InnerList(inner: Tree)
    requires inner == Branch('(', [Leaf("a"), Leaf("b")])
    ensures OnOneLine(inner) == "(a b)" && LineWidth(inner) == 4 && Branches(inner) == 1
    ensures Pretty(inner, 2, 6) == Printed("(a\n  b)", 1)
  {
    hide Pretty, PrettyAll;
    var gap := "\n" + seq(2, _ => ' ');
    assert gap == "\n  ";
    assert OnOneLine(inner.children[0]) == "a" && OnOneLine(inner.children[1]) == "b";
    assert InARow(inner, 1, " ") == "a" == InARow(inner, 1, gap);
    assert InARow(inner, 2, " ") == "a b" && InARow(inner, 2, gap) == "a\n  b";
    assert BranchesIn(inner, 1) == 0 && BranchesIn(inner, 2) == 0;
    WideIsBroken(inner, 2, 6);
  }

  lemma {:induction false} OuterList(t: Tree, inner: Tree)
    requires t == Branch('(', [inner]) && OnOneLine(inner) == "(a b)" && LineWidth(inner) == 4 && Branches(inner) == 1
    requires inner == Branch('(', [Leaf("a"), Leaf("b")]) && Pretty(inner, 2, 6) == Printed("(a\n  b)", 1)
    ensures OnOneLine(t) == "((a b))" && LineWidth(t) == 5
    ensures Pretty(t, 0, 6).s == "((a\n  b))"
  {
    assert InARow(t, 1, " ") == "(a b)" && BranchesIn(t, 1) == BranchesIn(t, 0) + 1;
    hide OnOneLine, InARow, Branches, BranchesIn;
    PrettyParts(t, 0, 6);
    var ps := PrettyAll(t, 0, 6);
    assert ps == [Printed("(a\n  b)", 1)];
    assert ps[..0] == [] && Join([], " ") == "" && Total([]) == 0;
  }
}
