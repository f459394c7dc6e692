/** The parsed HTML document as an immutable tree, and the three locators
    the extractor uses to find its way around it (parse.go:84-124). */
module Dom {
  import opened Wrappers

  /** The node kinds of golang.org/x/net/html. */
  datatype NodeType = ErrorNode | TextNode | DocumentNode | ElementNode | CommentNode | DoctypeNode | RawNode

  datatype Attribute = Attribute(namespace: string, key: string, val: string)

  /** `data` is the tag name of an element and the text of a text node;
      `children` lists `FirstChild`, `FirstChild.NextSibling`, ... in order. */
  datatype Node = Node(nodeType: NodeType, data: string, attrs: seq<Attribute>, children: seq<Node>)

  /** Some attribute of `n` has exactly this key and value (namespace ignored,
      comparison case-sensitive). */
  predicate HasAttr(n: Node, name: string, value: string) {
    exists i :: 0 <= i < |n.attrs| && n.attrs[i].key == name && n.attrs[i].val == value
  }

  predicate IsElementNamed(n: Node, tagName: string) {
    n.nodeType == ElementNode && n.data == tagName
  }

  // ---------------------------------------------------------------------------
  // Direct-child searches

  /** Index of the first element of `cs` named `tagName`, or `|cs|`. */
  function FirstIndexOfType(cs: seq<Node>, tagName: string): (i: nat)
    ensures i <= |cs|
    ensures forall j :: 0 <= j < i ==> !IsElementNamed(cs[j], tagName)
    ensures i < |cs| ==> IsElementNamed(cs[i], tagName)
  {
    if |cs| == 0 then 0
    else if IsElementNamed(cs[0], tagName) then 0
    else 1 + FirstIndexOfType(cs[1..], tagName)
  }

  /** `getFirstChildOfType`: the first direct child that is an element with
      the given tag name. */
  function GetFirstChildOfType(n: Node, tagName: string): (r: Option<Node>)
    ensures r.Some? ==> exists i :: 0 <= i < |n.children| && n.children[i] == r.value
                                    && IsElementNamed(r.value, tagName)
                                    && forall j :: 0 <= j < i ==> !IsElementNamed(n.children[j], tagName)
    ensures r.None? <==> forall i :: 0 <= i < |n.children| ==> !IsElementNamed(n.children[i], tagName)
  {
    var i := FirstIndexOfType(n.children, tagName);
    if i < |n.children| then Some(n.children[i]) else None
  }

  /** Index of the first node of `cs` carrying the attribute pair, or `|cs|`. */
  function FirstIndexWithAttr(cs: seq<Node>, name: string, value: string): (i: nat)
    ensures i <= |cs|
    ensures forall j :: 0 <= j < i ==> !HasAttr(cs[j], name, value)
    ensures i < |cs| ==> HasAttr(cs[i], name, value)
  {
    if |cs| == 0 then 0
    else if HasAttr(cs[0], name, value) then 0
    else 1 + FirstIndexWithAttr(cs[1..], name, value)
  }

  /** The first node of `cs`, in order, carrying the attribute pair. */
  function FirstWithAttr(cs: seq<Node>, name: string, value: string): (r: Option<Node>)
    ensures r.Some? ==> exists i :: 0 <= i < |cs| && cs[i] == r.value && HasAttr(r.value, name, value)
                                    && forall j :: 0 <= j < i ==> !HasAttr(cs[j], name, value)
    ensures r.None? <==> forall i :: 0 <= i < |cs| ==> !HasAttr(cs[i], name, value)
  {
    var i := FirstIndexWithAttr(cs, name, value);
    if i < |cs| then Some(cs[i]) else None
  }

  /** The first match in a concatenation is the first match of the left part
      if it has one, and otherwise the first match of the right part. */
  lemma {:induction false} FirstWithAttrAppend(a: seq<Node>, b: seq<Node>, name: string, value: string)
    ensures FirstWithAttr(a + b, name, value)
            == if FirstWithAttr(a, name, value).Some? then FirstWithAttr(a, name, value)
               else FirstWithAttr(b, name, value)
  {
    if a == [] {
      assert a + b == b;
    } else {
      assert (a + b)[0] == a[0];
      assert (a + b)[1..] == a[1..] + b;
      FirstWithAttrAppend(a[1..], b, name, value);
    }
  }

  /** `getFirstChildWithAttr`: nil in, nil out; otherwise the first direct
      child, of any node kind, carrying the attribute pair. */
  function GetFirstChildWithAttr(n: Option<Node>, name: string, value: string): (r: Option<Node>)
    ensures n.None? ==> r.None?
    ensures r.Some? ==> n.Some? && exists i :: 0 <= i < |n.value.children| && n.value.children[i] == r.value
                                    && HasAttr(r.value, name, value)
                                    && forall j :: 0 <= j < i ==> !HasAttr(n.value.children[j], name, value)
    ensures n.Some? ==> (r.None? <==> forall i :: 0 <= i < |n.value.children| ==> !HasAttr(n.value.children[i], name, value))
  {
    match n
    case None => None
    case Some(node) => FirstWithAttr(node.children, name, value)
  }

  // ---------------------------------------------------------------------------
  // Subtrees and the pre-order search

  /** The subtree rooted at `n`, listed in pre-order (a node before its
      children, children left to right). */
  function PreOrder(n: Node): (r: seq<Node>)
    ensures |r| >= 1 && r[0] == n
    decreases n, |n.children| + 1
  {
    [n] + PreOrderFrom(n, 0)
  }

  /** The pre-order listings of `n.children[i..]`, concatenated. */
  function PreOrderFrom(n: Node, i: nat): seq<Node>
    requires i <= |n.children|
    decreases n, |n.children| - i
  {
    if i == |n.children| then [] else PreOrder(n.children[i]) + PreOrderFrom(n, i + 1)
  }

  /** The search of `getDescendantWithAttr` on a non-nil node. */
  function DescendantWithAttr(n: Node, name: string, value: string): (r: Option<Node>)
    ensures r == FirstWithAttr(PreOrder(n), name, value)
    decreases n, |n.children| + 1
  {
    assert PreOrder(n) == [n] + PreOrderFrom(n, 0);
    FirstWithAttrAppend([n], PreOrderFrom(n, 0), name, value);
    if HasAttr(n, name, value) then Some(n) else DescendantWithAttrFrom(n, 0, name, value)
  }

  /** The loop of `getDescendantWithAttr` over `n.children[i..]`: the first
      non-nil result of a recursive search. */
  function DescendantWithAttrFrom(n: Node, i: nat, name: string, value: string): (r: Option<Node>)
    requires i <= |n.children|
    ensures r == FirstWithAttr(PreOrderFrom(n, i), name, value)
    decreases n, |n.children| - i
  {
    if i == |n.children| then None
    else
      FirstWithAttrAppend(PreOrder(n.children[i]), PreOrderFrom(n, i + 1), name, value);
      match DescendantWithAttr(n.children[i], name, value)
      case Some(found) => Some(found)
      case None => DescendantWithAttrFrom(n, i + 1, name, value)
  }

  /** `getDescendantWithAttr`: a pre-order search of the whole subtree, the
      node itself first. */
  function GetDescendantWithAttr(n: Option<Node>, name: string, value: string): (r: Option<Node>)
    ensures n.None? ==> r.None?
    ensures n.Some? && HasAttr(n.value, name, value) ==> r == n
    ensures r.Some? ==> n.Some? && r.value in PreOrder(n.value) && HasAttr(r.value, name, value)
    ensures n.Some? ==> (r.None? <==> forall m :: m in PreOrder(n.value) ==> !HasAttr(m, name, value))
    ensures n.Some? ==> r == FirstWithAttr(PreOrder(n.value), name, value)
  {
    match n
    case None => None
    case Some(node) => DescendantWithAttr(node, name, value)
  }

  // ---------------------------------------------------------------------------
  // Subtree containment

  /** Every node listed by `PreOrderFrom(n, i)` lies in the subtree of some
      child at or after `i`. */
  lemma {:induction false} PreOrderFromMember(n: Node, i: nat, m: Node)
    requires i <= |n.children|
    requires m in PreOrderFrom(n, i)
    ensures exists j :: i <= j < |n.children| && m in PreOrder(n.children[j])
    decreases |n.children| - i
  {
    if m !in PreOrder(n.children[i]) {
      PreOrderFromMember(n, i + 1, m);
    }
  }

  /** The subtree of every child at or after `i` is listed by `PreOrderFrom(n, i)`. */
  lemma {:induction false} PreOrderFromContains(n: Node, i: nat, j: nat, m: Node)
    requires i <= j < |n.children|
    requires m in PreOrder(n.children[j])
    ensures m in PreOrderFrom(n, i)
    decreases j - i
  {
    if i < j {
      PreOrderFromContains(n, i + 1, j, m);
    }
  }

  /** The subtree relation is transitive: a node in the subtree of a node in
      the subtree of `n` is in the subtree of `n`. */
  lemma {:induction false} SubtreeTransitive(n: Node, c: Node, m: Node)
    requires c in PreOrder(n) && m in PreOrder(c)
    ensures m in PreOrder(n)
    decreases n
  {
    if c != n {
      assert c in PreOrderFrom(n, 0);
      PreOrderFromMember(n, 0, c);
      var j :| 0 <= j < |n.children| && c in PreOrder(n.children[j]);
      SubtreeTransitive(n.children[j], c, m);
      PreOrderFromContains(n, 0, j, m);
    }
  }

  /** Every direct child of `n` is in the subtree of `n`. */
  lemma ChildInSubtree(n: Node, i: nat)
    requires i < |n.children|
    ensures n.children[i] in PreOrder(n)
  {
    PreOrderFromContains(n, 0, i, n.children[i]);
  }
}
