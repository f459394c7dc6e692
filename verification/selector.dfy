/** The field selector of parse.go: `fieldIsWanted` and `subfieldsContains5Pipe`
    (parse.go:126-158). Go's nil dereferences and index panics on these paths
    become preconditions. */
module Selector {
  import opened Wrappers
  import opened Text
  import opened Dom
  import opened Markup

  /** The `class="tag_ind"` child of a field row. */
  function TagIndicatorOf(field: Node): Option<Node> {
    GetFirstChildWithAttr(Some(field), ClassAttr, TagIndicatorClass)
  }

  /** The `class="tag"` child of the tag indicator, if both exist. */
  function TagOf(field: Node): Option<Node> {
    GetFirstChildWithAttr(TagIndicatorOf(field), ClassAttr, TagClass)
  }

  /** The `class="subfields"` child of a field row. */
  function SubfieldsOf(field: Node): Option<Node> {
    GetFirstChildWithAttr(Some(field), ClassAttr, SubfieldsClass)
  }

  /** `tag.FirstChild.Data` is readable: a tag node, when found, has a child. */
  predicate TagReadable(field: Node) {
    TagOf(field).Some? ==> |TagOf(field).value.children| > 0
  }

  /** The trimmed text of the tag node's first child, absent when the tag
      indicator or the tag node is. */
  function TagNumber(field: Node): (r: Option<string>)
    requires TagReadable(field)
    ensures r.None? <==> TagIndicatorOf(field).None? || TagOf(field).None?
    ensures r.Some? ==> Trimmed(r.value)
    ensures r.Some? ==> r.value == TrimSpace(TagOf(field).value.children[0].data)
  {
    match TagOf(field)
    case None => None
    case Some(tag) => Some(TrimSpace(tag.children[0].data))
  }

  /** Tag `500` or any tag whose first character is `7`. */
  predicate IsConditionalTag(t: string) {
    t == "500" || (|t| > 0 && t[0] == '7')
  }

  predicate IsSubCode(c: Node) {
    HasAttr(c, ClassAttr, SubCodeClass)
  }

  /** A `class="sub_code"` node whose first child's text is exactly `5|`. */
  predicate IsMarker(c: Node) {
    IsSubCode(c) && |c.children| > 0 && c.children[0].data == Delimiter
  }

  /** Some direct child of `subfields` is a delimiter marker. */
  predicate HasMarker(subfields: Node) {
    exists i :: 0 <= i < |subfields.children| && IsMarker(subfields.children[i])
  }

  /** The scan of `cs` never reads `FirstChild` of a childless `sub_code`
      node before it finds a marker. */
  predicate MarkerScanSafe(cs: seq<Node>) {
    |cs| == 0 ||
    ((IsSubCode(cs[0]) ==> |cs[0].children| > 0) && (IsMarker(cs[0]) || MarkerScanSafe(cs[1..])))
  }

  /** The loop of `subfieldsContains5Pipe` over the subfields' children. */
  function ScanForMarker(cs: seq<Node>): (r: bool)
    requires MarkerScanSafe(cs)
    ensures r <==> exists i :: 0 <= i < |cs| && IsMarker(cs[i])
  {
    if |cs| == 0 then false
    else if IsSubCode(cs[0]) && cs[0].children[0].data == Delimiter then true
    else
      var r := ScanForMarker(cs[1..]);
      assert forall i :: 0 < i < |cs| ==> cs[i] == cs[1..][i - 1];
      r
  }

  /** `subfieldsContains5Pipe` is defined: the subfields container exists
      (`n.ChildNodes()` on nil panics) and the scan is safe. */
  predicate SubfieldsScanSafe(field: Node) {
    SubfieldsOf(field).Some? && MarkerScanSafe(SubfieldsOf(field).value.children)
  }

  /** `subfieldsContains5Pipe`: the subfields container has a marker child. */
  function SubfieldsContains5Pipe(field: Node): (r: bool)
    requires SubfieldsScanSafe(field)
    ensures r <==> HasMarker(SubfieldsOf(field).value)
  {
    ScanForMarker(SubfieldsOf(field).value.children)
  }

  /** `fieldIsWanted` runs without a panic: the tag node has a child, a tag
      outside the static list is not empty (`tagNumber[0]`), and a `500`/`7xx`
      tag has a safely scannable subfields container. */
  predicate FieldWellFormed(field: Node) {
    && TagReadable(field)
    && match TagNumber(field)
       case None => true
       case Some(t) => t in TagsWanted || (|t| > 0 && (IsConditionalTag(t) ==> SubfieldsScanSafe(field)))
  }

  /** `fieldIsWanted`. */
  function FieldIsWanted(field: Node): (r: bool)
    requires FieldWellFormed(field)
    ensures TagIndicatorOf(field).None? || TagOf(field).None? ==> !r
    ensures TagNumber(field).Some? && TagNumber(field).value in TagsWanted ==> r
    ensures TagNumber(field).Some? && TagNumber(field).value !in TagsWanted && IsConditionalTag(TagNumber(field).value)
            ==> (r <==> HasMarker(SubfieldsOf(field).value))
    ensures TagNumber(field).Some? && !IsConditionalTag(TagNumber(field).value)
            ==> (r <==> TagNumber(field).value in TagsWanted)
  {
    match TagNumber(field)
    case None => false
    case Some(tagNumber) =>
      if tagNumber in TagsWanted then true
      else (tagNumber == "500" || tagNumber[0] == '7') && SubfieldsContains5Pipe(field)
  }

  /** No statically wanted tag is also a conditional one, so the two rules
      never compete. */
  lemma WantedTagsAreUnconditional(t: string)
    requires t in TagsWanted
    ensures !IsConditionalTag(t)
  {
  }

  /** A field with a statically wanted tag is selected whatever its
      subfields look like, even when it has no subfields container. */
  lemma StaticTagNeedsNoSubfields(field: Node)
    requires TagReadable(field)
    requires TagNumber(field).Some? && TagNumber(field).value in TagsWanted
    ensures FieldWellFormed(field) && FieldIsWanted(field)
  {
  }
}
