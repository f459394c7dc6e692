# Catalogue card scraper: the librarian-view extraction engine in Dafny

This project models the core of a small Go tool. The tool reads a library
catalogue's MARC "librarian view" page and prints a readable subset of the
record's fields. The model starts from the parsed HTML tree. It covers:

- **DOM locators** (`Dom`). There are three: the first element child with a
  given tag, the first child carrying an exact attribute pair, and a
  pre-order search of a whole subtree for that pair.
- **Field selector** (`Selector`). A field row is wanted when its tag is one
  of `090 100 240 245 260 264 300 590 591`. A `500` or `7xx` row is wanted
  only when its subfields container has a `class="sub_code"` child whose
  first child's text is exactly `5|`.
- **Subfield flattener** (`Subfields`). It walks the subfields container's
  children in order and stops at a `span` element whose first child is `5|`.
  It skips every other element and trims each text node. It drops empty
  texts and the `UNAUTHORIZED` placeholder, then joins what is left with
  single spaces.
- **`parse` driver** (`Extract`). It looks up four anchors in order: `<html>`,
  `<body>`, `id="main-container"`, and `id="marc_view"` found by descendant
  search. Each wanted row with a subfields container becomes one output
  line. The driver returns `Result<seq<string>, Anchor>` instead of printing.
  On failure, the `Anchor` names the first anchor that was missing.
- **The earlier draft in main.go** (`Draft`). Its locator and selector decide
  exactly as parse.go's do. Its flattener skips every node whose `Data` is
  `span` and never stops, so text after the `5|` span still appears.

The HTML tree is an immutable value of type `Dom.Node`. A node has a kind, a
`data` string, an ordered list of attributes and an ordered list of children.
Go's `FirstChild` is `children[0]`. Go's nil node is `Option.None`. A node
the Go code returns by pointer is returned here as the subtree value. Every
operation is a pure function, so none of them can change the document, and
running one twice on the same document gives the same result.

Go's run-time panics are preconditions, not error results:

- `tag.FirstChild` on a tag node with no children (parse.go:135):
  `Selector.TagReadable`.
- `tagNumber[0]` on an empty tag outside the static list (parse.go:142):
  `Selector.FieldWellFormed`.
- A `500`/`7xx` row with no subfields container (parse.go:149-150), and
  `child.FirstChild` on a childless `sub_code` node reached before any
  marker (parse.go:152): `Selector.SubfieldsScanSafe`.
- `n.FirstChild` on a childless `span` element reached before the stop
  (parse.go:167): `Subfields.FlattenSafe`.

Each predicate is exact. It excludes only the inputs on which the Go code
would actually reach the panic, because short-circuit evaluation and early
returns are taken into account.

Some behaviour of the code is easy to misread, and the model keeps it as
written:

- A `500`/`7xx` row without a subfields container reaches a nil
  dereference (parse.go:149-150), so a container is a precondition there.
- A tag outside the static list has its first character read without a
  length check (parse.go:142), so a non-empty tag is a precondition there.
- The selector and the flattener recognise the `5|` delimiter by different
  tests:
  - the selector looks for a node with `class="sub_code"` (parse.go:152);
  - the flattener stops at an element whose `Data` is `span` (parse.go:167).

  Both are modelled as written, as `Selector.IsMarker` and
  `Subfields.IsTerminator`.
- `getFirstChildOfType` has no nil check (parse.go:84-85). It is only ever
  called on non-nil nodes, so `Dom.GetFirstChildOfType` takes a `Node`.

## Model

| member | source | states |
|---|---|---|
| Text.TrimSpace | parse.go:172 | The result has no white space at either end (Go's `unicode.IsSpace` set). It is the slice of the input that starts right after the maximal white-space prefix, and everything after it is white space. It is empty exactly when the input is all white space. |
| Text.TrimSpaceIdempotent | parse.go:135 | Trimming an already trimmed tag or text changes nothing. |
| Dom.GetFirstChildOfType | parse.go:84-91 | Any result is a direct child that is an element with the requested tag, and no earlier child is one. The result is absent exactly when no child is such an element. |
| Dom.GetFirstChildWithAttr | parse.go:93-105 | Nil input gives nil. Otherwise any result is a direct child of any node kind that carries exactly the (key, value) pair, and no earlier child carries it. The result is absent exactly when no child carries it. |
| Dom.FirstWithAttrAppend | parse.go:118-122 | The first match in a concatenation is the left part's first match if it has one, and otherwise the right part's. This is the step that lets the recursive search be read as a single linear search. |
| Dom.DescendantWithAttr | parse.go:107-124 | The recursive, early-exit search returns exactly the first node carrying the pair in the pre-order listing of the subtree. |
| Dom.GetDescendantWithAttr | parse.go:107-124 | Nil gives nil. A node that carries the pair itself is returned. Any result is in the subtree and carries the pair. Nil is returned exactly when no node of the subtree carries it. |
| Dom.SubtreeTransitive | parse.go:53-69 | A node in the subtree of a node in the subtree of `n` is in the subtree of `n`. This places every anchor found by the chained lookups inside the document. |
| Selector.TagNumber | parse.go:127-135 | The tag text is absent exactly when the `tag_ind` child or its `tag` child is missing. When present, it is the trimmed `Data` of the tag node's first child, so it has no white space at either end. |
| Selector.ScanForMarker | parse.go:150-157 | The loop answers true exactly when some child has `class="sub_code"` and a first child whose `Data` is exactly `5|`. |
| Selector.SubfieldsContains5Pipe | parse.go:148-158 | True exactly when the field's subfields container has such a marker child. |
| Selector.FieldIsWanted | parse.go:126-146 | Not wanted when `tag_ind` or `tag` is missing. Wanted when the trimmed tag is in the static list. For a `500`/`7xx` tag outside the list, wanted exactly when the subfields carry a `5|` marker. Any other tag is not wanted. |
| Selector.WantedTagsAreUnconditional | parse.go:30-42 | No tag in the static list is `500` or starts with `7`, so the static and conditional rules never overlap. |
| Selector.StaticTagNeedsNoSubfields | parse.go:135-140 | A row whose tag is in the static list is well-formed and wanted without a subfields container, so the subfields are never consulted. |
| Subfields.Append | parse.go:173-176 | Adding one token to the accumulator separates it from earlier text with a single space, and adds no space when the accumulator is empty. |
| Subfields.CollectJoins | parse.go:164-179 | Starting from any accumulator, the loop appends the space-join of the kept, trimmed texts of the non-element children before the first `5|` span. |
| Subfields.FlattenChildren | parse.go:164-179 | The flattened text is the single-space join, in order, of the kept, trimmed texts of the non-element children before the first terminator. |
| Subfields.SubfieldsAsString | parse.go:160-180 | Nil gives `""`. Otherwise the result is the same join over the node's children. |
| Subfields.ShownTokensAppend | parse.go:165-171 | Children before any terminator pass their tokens straight through to the output, in order. |
| Subfields.FlattenAppend | parse.go:164-179 | Children are flattened left to right: a run without a `5|` span, followed by more children, gives the run's text and the rest's text separated by one space, with no space when either is empty. |
| Subfields.TextStopsAtTerminator | parse.go:166-169 | Whatever follows the first `5|` span, the text equals that of the children before it. No later sibling contributes. |
| Subfields.ElementContributesNothing | parse.go:166-171 | Inserting a non-terminator element anywhere before the stop leaves the text unchanged. |
| Subfields.DroppedTextContributesNothing | parse.go:172 | Inserting a text node whose trimmed text is empty or `UNAUTHORIZED` leaves the text unchanged. |
| Subfields.SubfieldsTextTrimmed | parse.go:172-177 | The text has no leading or trailing white space, because separators are single spaces between non-empty, trimmed tokens. |
| Extract.AnchorsNest | parse.go:53-69 | Each anchor is looked up inside the one before it, so a found anchor means every earlier anchor was found. |
| Extract.MarcViewInDocument | parse.go:61-69 | The record container, when found, carries `id="marc_view"` and lies in the document's subtree. |
| Extract.FindMarcView | parse.go:53-69 | Failure names an anchor that is missing, and every earlier anchor is present. Success means all four were found. The container returned is exactly the first `id="marc_view"` node, in pre-order, under the `main-container` child of `<body>`; it lies inside the document. |
| Extract.FieldLines | parse.go:71-79 | A row yields exactly one line when it is wanted and has a subfields container, and no line otherwise. That line is the row's flattened subfields. |
| Extract.LinesAppend | parse.go:71-79 | Rows are handled independently and in document order: the lines of two row lists concatenated are the concatenation of their lines. |
| Extract.Parse | parse.go:53-81 | Fails exactly when an anchor is missing, naming the first missing one in the order html, body, main-container, marc_view. On success, the lines are exactly those of the children of the first `id="marc_view"` node, in pre-order, under `main-container`, one per wanted row with subfields, in document order. |
| Draft.ScanChildrenIsFirstWithAttr | main.go:117-124 | The draft's child loop finds the same node as the first-match search. |
| Draft.DraftGetFirstChildWithAttr | main.go:113-125 | main.go's locator returns exactly what parse.go's returns, on every input including nil. |
| Draft.DraftSubfieldsContains5Pipe | main.go:149-159 | True exactly when the subfields container has a `sub_code` child whose first child's `Data` is `5|`. |
| Draft.RowIsWanted | main.go:127-147 | On every row where the code does not panic, `rowIsWanted` decides exactly as `fieldIsWanted`. So it inherits all of that function's properties. |
| Draft.DraftCollectJoins | main.go:165-175 | The draft loop appends the space-join of the kept, trimmed `Data` of every child not named `span`. |
| Draft.DraftSubfieldsAsString | main.go:161-177 | Nil gives `""`. Otherwise the result is the single-space join of the kept, trimmed `Data` of every child whose `Data` is not `span`, of any node kind, with no stop at a `5|` span. |
| Draft.DraftSkipsSpans | main.go:166-168 | Inserting a node named `span` anywhere, the `5|` span included, leaves the draft's text unchanged. Text after it still appears. |
| Draft.DraftsAgreeOnPlainText | main.go:161-177 | On children that are neither elements nor named `span`, the draft and parse.go's flattener give the same text. |
| Draft.DraftShowsTextAfterMarker | main.go:165-168 | For a text node, a `5|` span and another text node: parse.go prints only the first text, while the draft prints both, space-separated. |
| Draft.DraftShowsElementNames | main.go:169-174 | A lone element child not named `span` (a `<br>`, say) adds nothing in parse.go, while the draft prints its trimmed tag name. |

## Findings

| source | as written | input that shows it | evidently intended | confidence | as-written member | corrected member |
|---|---|---|---|---|---|---|
| main.go:165-168 | The draft flattener skips the `5|` span and keeps scanning, so local-institution-only text after the delimiter is printed. | Subfields `[text "Smith", <span>5|</span>, text "hidden"]` print `Smith hidden`. | Stop at the `5|` span and print `Smith`. parse.go:167-168 does this, with the comment that no text after the delimiter is wanted. | not executed; follows from the proofs | Draft.DraftShowsTextAfterMarker | Subfields.TextStopsAtTerminator |

`Draft.DraftSubfieldsAsString` models the draft as written, and
`Draft.DraftShowsTextAfterMarker` proves the leak for every input of that
shape. The rest of the model uses `Subfields.SubfieldsAsString`, which stops
at the span; `Subfields.TextStopsAtTerminator` proves it.

## Left out

- `html.Parse` from golang.org/x/net/html (parse.go:47-51). The tree is taken as a given input, and a parser error is not modelled.
- `main`, `getControlNumber`, `http.Get`, `io.ReadAll`, `log.Fatalf` and the `fmt.Println` output (main.go:46-76, parse.go:77). This is command-line and network I/O. The lines are returned instead of printed.
- The draft `parse` in main.go (main.go:78-111). It finds anchors by fixed sibling offsets and can dereference nil. parse.go's driver replaces it.
- The wording of the error messages (`%w` wrapping, and the `%e` verb in main.go:87). Only which anchor failed is modelled.
- Go's panics. Each one is a precondition, so panicking behaviour itself is not modelled.
- Pointer identity of nodes. Two equal subtrees cannot be told apart, and the first one in document order is the one returned.
- Text.TrimSpace: works on Unicode scalar values. It does not model Go's byte-level handling of invalid UTF-8.
- Extract.Lines: its own contract only bounds the number of lines. `Extract.FieldLines` and `Extract.LinesAppend` give the exact content and order.
- Both files declaring the same identifiers in one package. This is a build problem, not behaviour, so each draft gets its own names here.
