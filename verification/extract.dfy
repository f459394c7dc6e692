/** The tree-walking part of parse.go's `parse` (parse.go:53-81): find the
    record container through four anchors, then turn every wanted field row
    into one output line. Printing is replaced by returning the lines. */
module Extract {
  import opened Wrappers
  import opened Dom
  import opened Markup
  import opened Selector
  import opened Subfields

  /** The structural anchors, in the order they are looked up. */
  datatype Anchor = HtmlAnchor | BodyAnchor | MainContainerAnchor | MarcViewAnchor

  function Rank(a: Anchor): nat {
    match a
    case HtmlAnchor => 0
    case BodyAnchor => 1
    case MainContainerAnchor => 2
    case MarcViewAnchor => 3
  }

  /** The `<html>` element child of the document. */
  function HtmlOf(document: Node): Option<Node> {
    GetFirstChildOfType(document, HtmlTag)
  }

  /** The `<body>` element child of `<html>`. */
  function BodyOf(document: Node): Option<Node> {
    match HtmlOf(document)
    case None => None
    case Some(html) => GetFirstChildOfType(html, BodyTag)
  }

  /** The `id="main-container"` child of `<body>`. */
  function MainContainerOf(document: Node): Option<Node> {
    GetFirstChildWithAttr(BodyOf(document), IdAttr, MainContainerId)
  }

  /** The first `id="marc_view"` node, in pre-order, of the main container's subtree. */
  function MarcViewOf(document: Node): Option<Node> {
    GetDescendantWithAttr(MainContainerOf(document), IdAttr, MarcViewId)
  }

  /** Where each anchor is found, each one inside the one before it. */
  function Located(document: Node, a: Anchor): Option<Node> {
    match a
    case HtmlAnchor => HtmlOf(document)
    case BodyAnchor => BodyOf(document)
    case MainContainerAnchor => MainContainerOf(document)
    case MarcViewAnchor => MarcViewOf(document)
  }

  /** A found anchor means every earlier anchor was found. */
  lemma AnchorsNest(document: Node, a: Anchor, b: Anchor)
    requires Rank(a) < Rank(b) && Located(document, b).Some?
    ensures Located(document, a).Some?
  {
  }

  /** The record container, when found, lies inside the document and
      carries `id="marc_view"`. */
  lemma MarcViewInDocument(document: Node)
    requires MarcViewOf(document).Some?
    ensures MarcViewOf(document).value in PreOrder(document)
    ensures HasAttr(MarcViewOf(document).value, IdAttr, MarcViewId)
  {
    var html := HtmlOf(document).value;
    var i :| 0 <= i < |document.children| && document.children[i] == html;
    ChildInSubtree(document, i);
    var body := BodyOf(document).value;
    var j :| 0 <= j < |html.children| && html.children[j] == body;
    ChildInSubtree(html, j);
    SubtreeTransitive(document, html, body);
    var main := MainContainerOf(document).value;
    var k :| 0 <= k < |body.children| && body.children[k] == main;
    ChildInSubtree(body, k);
    SubtreeTransitive(document, body, main);
    SubtreeTransitive(document, main, MarcViewOf(document).value);
  }

  /** The anchor lookups of `parse`, failing with the first anchor missing. */
  function FindMarcView(document: Node): (r: Result<Node, Anchor>)
    ensures r.Failure? ==> Located(document, r.error).None?
    ensures r.Failure? ==> forall a :: Rank(a) < Rank(r.error) ==> Located(document, a).Some?
    ensures r.Success? <==> forall a :: Located(document, a).Some?
    ensures r.Success? ==> MarcViewOf(document).Some? && r.value == MarcViewOf(document).value
    ensures r.Success? ==> r.value in PreOrder(document) && HasAttr(r.value, IdAttr, MarcViewId)
  {
    match GetFirstChildOfType(document, HtmlTag)
    case None => Failure(HtmlAnchor)
    case Some(htmlNode) =>
      match GetFirstChildOfType(htmlNode, BodyTag)
      case None => Failure(BodyAnchor)
      case Some(body) =>
        match GetFirstChildWithAttr(Some(body), IdAttr, MainContainerId)
        case None => Failure(MainContainerAnchor)
        case Some(mainContainer) =>
          match GetDescendantWithAttr(Some(mainContainer), IdAttr, MarcViewId)
          case None => Failure(MarcViewAnchor)
          case Some(marcView) =>
            MarcViewInDocument(document);
            Success(marcView)
  }

  /** A field row can be classified and, if printed, flattened without a panic. */
  predicate FieldReady(field: Node) {
    && FieldWellFormed(field)
    && (FieldIsWanted(field) && SubfieldsOf(field).Some? ==> FlattenSafe(SubfieldsOf(field).value.children))
  }

  /** Every field row of `fields` is ready. */
  predicate AllReady(fields: seq<Node>) {
    |fields| == 0 || (FieldReady(fields[0]) && AllReady(fields[1..]))
  }

  /** The lines one field row prints: its display text when it is wanted
      and has a subfields container, nothing otherwise. */
  function FieldLines(field: Node): (lines: seq<string>)
    requires FieldReady(field)
    ensures |lines| <= 1
    ensures |lines| == 1 <==> FieldIsWanted(field) && SubfieldsOf(field).Some?
    ensures |lines| == 1 ==> lines[0] == SubfieldsAsString(SubfieldsOf(field))
  {
    if !FieldIsWanted(field) then []
    else match SubfieldsOf(field)
      case None => []
      case Some(v) => [SubfieldsAsString(Some(v))]
  }

  /** The loop of `parse` over the record container's children. */
  function Lines(fields: seq<Node>): (lines: seq<string>)
    requires AllReady(fields)
    ensures |lines| <= |fields|
  {
    if |fields| == 0 then [] else FieldLines(fields[0]) + Lines(fields[1..])
  }

  lemma {:induction false} AllReadyAppend(a: seq<Node>, b: seq<Node>)
    requires AllReady(a) && AllReady(b)
    ensures AllReady(a + b)
  {
    if a == [] {
      assert a + b == b;
    } else {
      TailOfAppend(a, b);
      AllReadyAppend(a[1..], b);
    }
  }

  lemma TailOfAppend(a: seq<Node>, b: seq<Node>)
    requires a != []
    ensures a + b != [] && (a + b)[0] == a[0] && (a + b)[1..] == a[1..] + b
  {
  }

  /** Fields are handled independently and in document order: the lines of
      a concatenation are the concatenation of the lines. */
  lemma {:induction false} LinesAppend(a: seq<Node>, b: seq<Node>)
    requires AllReady(a) && AllReady(b)
    ensures AllReady(a + b)
    ensures Lines(a + b) == Lines(a) + Lines(b)
  {
    AllReadyAppend(a, b);
    if a == [] {
      assert a + b == b;
    } else {
      TailOfAppend(a, b);
      LinesAppend(a[1..], b);
      var first := FieldLines(a[0]);
      assert Lines(a + b) == first + (Lines(a[1..]) + Lines(b));
      assert Lines(a) == first + Lines(a[1..]);
      ConcatAssociative(first, Lines(a[1..]), Lines(b));
    }
  }

  lemma ConcatAssociative(x: seq<string>, y: seq<string>, z: seq<string>)
    ensures x + (y + z) == (x + y) + z
  {
  }

  /** `parse` runs without a panic on every row of the record container. */
  predicate ParseSafe(document: Node) {
    FindMarcView(document).Success? ==> AllReady(FindMarcView(document).value.children)
  }

  /** `parse`: the first missing anchor, or one line per record-container
      child that is wanted and has subfields. */
  function Parse(document: Node): (r: Result<seq<string>, Anchor>)
    requires ParseSafe(document)
    ensures r.Failure? ==> Located(document, r.error).None?
    ensures r.Failure? ==> forall a :: Rank(a) < Rank(r.error) ==> Located(document, a).Some?
    ensures r.Success? <==> forall a :: Located(document, a).Some?
    ensures r.Success? ==> && MarcViewOf(document).Some?
                           && AllReady(MarcViewOf(document).value.children)
                           && r.value == Lines(MarcViewOf(document).value.children)
    ensures r.Success? ==> exists marcView ::
              && marcView in PreOrder(document)
              && HasAttr(marcView, IdAttr, MarcViewId)
              && AllReady(marcView.children)
              && r.value == Lines(marcView.children)
  {
    match FindMarcView(document)
    case Failure(anchor) => Failure(anchor)
    case Success(marcView) => Success(Lines(marcView.children))
  }
}
