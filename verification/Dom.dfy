/**
 A finite DOM tree, as the selector engine and the document-order comparator see it.
 A node is named by its path from the root (the child indices to follow), so parent and
 sibling links are arithmetic on paths and two paths are equal exactly when the nodes are.
 The links the source follows one at a time (parentNode, previousSibling) are functions of the
 path, and an ancestor's path is a proper prefix.
*/
module Dom {
  import opened Lists

  datatype Kind = Element | Document | Fragment | Text

  datatype Tree = Tree(kind: Kind, kids: seq<Tree>)

  type Path = seq<nat>

  predicate IsNode(t: Tree, p: Path) {
    p == [] || (p[0] < |t.kids| && IsNode(t.kids[p[0]], p[1..]))
  }

  /** Whether the node at p is an element. */
  predicate IsElement(t: Tree, p: Path) {
    if p == [] then t.kind.Element? else p[0] < |t.kids| && IsElement(t.kids[p[0]], p[1..])
  }

  /** Below the root, only elements have children. */
  predicate WellFormed(t: Tree) {
    forall i :: 0 <= i < |t.kids| ==> (t.kids[i].kids != [] ==> t.kids[i].kind.Element?) && WellFormed(t.kids[i])
  }

  /** The two links a combinator climbs. */
  datatype Dir = ParentNode | PreviousSibling

  function Parent(p: Path): Path
    requires p != []
  {
    p[..|p| - 1]
  }

  function Last(p: Path): nat
    requires p != []
  {
    p[|p| - 1]
  }

  /** elem[dir], None for a null link. */
  function Follow(dir: Dir, p: Path): Option<Path> {
    if p == [] then None
    else if dir.ParentNode? then Some(Parent(p))
    else if Last(p) == 0 then None
    else Some(Parent(p) + [Last(p) - 1])
  }

  /** How many times dir can still be followed. */
  function Rank(dir: Dir, p: Path): nat {
    if p == [] then 0 else if dir.ParentNode? then |p| else Last(p)
  }

  /** contains(a, d): a is a proper ancestor of d. */
  predicate Under(a: Path, d: Path) {
    |a| < |d| && a == d[..|a|]
  }

  lemma {:induction false} ElementIsNode(t: Tree, p: Path)
    requires IsElement(t, p)
    ensures IsNode(t, p)
  {
    if p != [] { ElementIsNode(t.kids[p[0]], p[1..]); }
  }

  lemma {:induction false} AncestorIsNode(t: Tree, p: Path, n: nat)
    requires IsNode(t, p) && n <= |p|
    ensures IsNode(t, p[..n])
  {
    if 0 < n {
      AncestorIsNode(t.kids[p[0]], p[1..], n - 1);
      assert p[..n][1..] == p[1..][..n - 1];
    }
  }

  /** In a well-formed tree every proper ancestor except possibly the root is an element. */
  lemma {:induction false} InnerNodeIsElement(t: Tree, p: Path, n: nat)
    requires WellFormed(t) && IsNode(t, p) && 0 < n < |p|
    ensures IsElement(t, p[..n])
  {
    var kid := t.kids[p[0]];
    assert p[..n][1..] == p[1..][..n - 1];
    if n == 1 {
      assert IsNode(kid, p[1..]);
    } else {
      InnerNodeIsElement(kid, p[1..], n - 1);
    }
  }
}
