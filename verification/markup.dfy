/** The vocabulary of the catalogue's librarian-view page: the anchors,
    the class names of a field row's parts, the wanted MARC tags and the
    local-use delimiter (parse.go:12-42; main.go:16-41 declares the same values). */
module Markup {

  const HtmlTag := "html"
  const BodyTag := "body"

  const IdAttr := "id"
  const ClassAttr := "class"

  const MainContainerId := "main-container"
  const MarcViewId := "marc_view"

  const TagIndicatorClass := "tag_ind"
  const TagClass := "tag"
  const SubfieldsClass := "subfields"
  const SubCodeClass := "sub_code"

  /** Tags always printed. `500` and the `7xx` tags are printed only when
      their subfields carry the local-use delimiter. */
  const TagsWanted: seq<string> := ["090", "100", "240", "245", "260", "264", "300", "590", "591"]

  /** The subfield code marking local-institution-only data. */
  const Delimiter := "5|"

  /** Server-rendered stand-in for text the reader may not see. */
  const Unauthorized := "UNAUTHORIZED"

  const SpanTag := "span"
}
