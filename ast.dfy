/** The syntax tree every stage shares: BizNode objects whose children list
    grows in place, and the immutable Node value each one stands for. */
module Ast {
  import opened Text
  import opened Tokens

  /** The node kinds the parser creates (the kind strings of BizNode). */
  datatype Kind = Program | Rule | When | Set | Target | Value | Test | Given | Expect

  function KindName(k: Kind): string
  {
    match k
    case Program => "Program"  case Rule => "Rule"      case When => "When"
    case Set => "Set"          case Target => "Target"  case Value => "Value"
    case Test => "Test"        case Given => "Given"    case Expect => "Expect"
  }

  /** A tree as a value: what a BizNode and everything below it hold. */
  datatype Node = Node(kind: Kind, text: string, line: nat, col: nat, children: seq<Node>)

  /** BizNode.toString: the kind, the text in parentheses unless it is empty,
      and the position. */
  function Render(kind: Kind, text: string, line: nat, col: nat): string
  {
    KindName(kind) + (if text == "" then "" else "(" + text + ")") + PositionSuffix(line, col)
  }

  /** The rendering can be read back: it starts with the kind's name, ends
      with the position, and what lies between is empty exactly when the text
      is, and is the text in parentheses otherwise. */
  lemma RenderReadBack(kind: Kind, text: string, line: nat, col: nat)
    ensures var r := Render(kind, text, line, col);
      var n := KindName(kind); var p := PositionSuffix(line, col);
      && |n| + |p| <= |r| && r[..|n|] == n && r[|r| - |p|..] == p
      && (text == "" <==> |r| == |n| + |p|)
      && (text != "" ==> r[|n|..|r| - |p|] == "(" + text + ")")
  {
    var r := Render(kind, text, line, col);
    var n := KindName(kind);
    var p := PositionSuffix(line, col);
    var mid := if text == "" then "" else "(" + text + ")";
    assert r == n + mid + p;
    assert r[..|n|] == n;
    assert r[|r| - |p|..] == p;
    assert r[|n|..|r| - |p|] == mid;
  }

  /** A syntax tree node. kind, text, line and col never change after
      construction; children grows through Add. tree is the value the node
      and everything below it stand for, and Repr the set of nodes at or below
      this one; Valid says the nodes below form a tree hanging from this one
      (no node lies below itself) whose values make up tree. */
  class BizNode {
    const kind: Kind
    const text: string
    const line: nat
    const col: nat
    var children: seq<BizNode>
    ghost var tree: Node
    ghost var Repr: set<BizNode>

    ghost predicate Valid()
      reads this, Repr
      decreases Repr, 1
    {
      this in Repr && Holds()
    }

    /** What Valid says beyond this in Repr: the tree has this node's fields,
        and each child is a valid node below this one whose tree is the
        matching child of tree. */
    ghost predicate Holds()
      requires this in Repr
      reads this, Repr
      decreases Repr, 0
    {
      && tree.kind == kind && tree.text == text && tree.line == line && tree.col == col
      && |tree.children| == |children|
      && forall k :: 0 <= k < |children| ==>
           && children[k] in Repr && children[k].Repr <= Repr && this !in children[k].Repr
           && children[k].Valid() && children[k].tree == tree.children[k]
    }

    /** new BizNode(kind, text, line, col): a leaf holding the four values. */
    constructor (kind: Kind, text: string, line: nat, col: nat)
      ensures this.kind == kind && this.text == text && this.line == line && this.col == col
      ensures children == [] && Repr == {this} && Valid()
      ensures tree == Node(kind, text, line, col, [])
    {
      this.kind, this.text, this.line, this.col := kind, text, line, col;
      children := [];
      tree := Node(kind, text, line, col, []);
      Repr := {this};
    }

    /** add(n): appends n to the children and returns this node; the earlier
        children and the fixed fields are unchanged, and the tree gains n's
        tree as its last child. */
    method Add(n: BizNode) returns (self: BizNode)
      requires Valid() && n.Valid() && this !in n.Repr
      modifies this`children, this`tree, this`Repr
      ensures self == this
      ensures children == old(children) + [n] && Repr == old(Repr) + n.Repr
      ensures tree == Node(kind, text, line, col, old(tree).children + [n.tree])
      ensures Valid()
    {
      children := children + [n];
      tree := Node(kind, text, line, col, tree.children + [n.tree]);
      Repr := Repr + n.Repr;
      self := this;
    }

    /** toString */
    function ToString(): string
      reads this
    {
      Render(kind, text, line, col)
    }
  }
}
