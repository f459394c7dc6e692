/** The earlier draft of the selector and flattener in main.go
    (main.go:113-177), and how it relates to parse.go's versions: the locator
    and the selector agree, while the flattener skips every node named `span`
    instead of stopping at the `5|` span. */
module Draft {
  import opened Wrappers
  import opened Text
  import opened Dom
  import opened Markup
  import opened Selector
  import opened Subfields

  /** The loop of main.go's `getFirstChildWithAttr`: the first node of `cs`
      with the attribute pair. */
  function ScanChildren(cs: seq<Node>, name: string, value: string): Option<Node> {
    if |cs| == 0 then None
    else if HasAttr(cs[0], name, value) then Some(cs[0])
    else ScanChildren(cs[1..], name, value)
  }

  lemma {:induction false} ScanChildrenIsFirstWithAttr(cs: seq<Node>, name: string, value: string)
    ensures ScanChildren(cs, name, value) == FirstWithAttr(cs, name, value)
  {
    if |cs| > 0 && !HasAttr(cs[0], name, value) {
      ScanChildrenIsFirstWithAttr(cs[1..], name, value);
      assert FirstIndexWithAttr(cs, name, value) == 1 + FirstIndexWithAttr(cs[1..], name, value);
    }
  }

  /** main.go's `getFirstChildWithAttr` finds the same child as parse.go's. */
  function DraftGetFirstChildWithAttr(n: Option<Node>, name: string, value: string): (r: Option<Node>)
    ensures r == GetFirstChildWithAttr(n, name, value)
  {
    match n
    case None => None
    case Some(node) =>
      ScanChildrenIsFirstWithAttr(node.children, name, value);
      ScanChildren(node.children, name, value)
  }

  /** main.go's `subfieldsContains5Pipe`; its loop is the same scan as parse.go's. */
  function DraftSubfieldsContains5Pipe(row: Node): (r: bool)
    requires SubfieldsScanSafe(row)
    ensures r <==> HasMarker(SubfieldsOf(row).value)
  {
    var subfields := DraftGetFirstChildWithAttr(Some(row), ClassAttr, SubfieldsClass);
    ScanForMarker(subfields.value.children)
  }

  /** main.go's `rowIsWanted` decides exactly as parse.go's `fieldIsWanted`
      on every row on which neither panics. */
  function RowIsWanted(row: Node): (r: bool)
    requires FieldWellFormed(row)
    ensures r == FieldIsWanted(row)
  {
    var tagIndicator := DraftGetFirstChildWithAttr(Some(row), ClassAttr, TagIndicatorClass);
    if tagIndicator.None? then false
    else
      var tag := DraftGetFirstChildWithAttr(tagIndicator, ClassAttr, TagClass);
      if tag.None? then false
      else
        var tagNumber := TrimSpace(tag.value.children[0].data);
        if tagNumber in TagsWanted then true
        else (tagNumber == "500" || tagNumber[0] == '7') && DraftSubfieldsContains5Pipe(row)
  }

  // ---------------------------------------------------------------------------
  // The draft flattener

  /** The tokens a node contributes in the draft: its trimmed `Data`, when
      kept, unless that `Data` is `span` (any node kind). */
  function DraftTokenOf(c: Node): (ts: seq<string>)
    ensures AllTokens(ts) && |ts| <= 1
  {
    if c.data == SpanTag then []
    else
      var text := TrimSpace(c.data);
      if Keep(text) then [text] else []
  }

  /** Reference listing of the draft's tokens over all of `cs`, in order. */
  function DraftTokens(cs: seq<Node>): (ts: seq<string>)
    ensures AllTokens(ts)
    ensures |ts| <= |cs|
  {
    if |cs| == 0 then [] else DraftTokenOf(cs[0]) + DraftTokens(cs[1..])
  }

  lemma {:induction false} DraftTokensAppend(a: seq<Node>, b: seq<Node>)
    ensures DraftTokens(a + b) == DraftTokens(a) + DraftTokens(b)
  {
    if a == [] {
      assert a + b == b;
    } else {
      assert (a + b)[0] == a[0];
      assert (a + b)[1..] == a[1..] + b;
      DraftTokensAppend(a[1..], b);
    }
  }

  /** The loop of main.go's `getSubfieldsAsString`. */
  function DraftCollect(cs: seq<Node>, acc: string): string {
    if |cs| == 0 then acc
    else if cs[0].data == SpanTag then DraftCollect(cs[1..], acc)
    else
      var text := TrimSpace(cs[0].data);
      if text != "" && text != Unauthorized then DraftCollect(cs[1..], Append(acc, text))
      else DraftCollect(cs[1..], acc)
  }

  lemma {:induction false} DraftCollectJoins(cs: seq<Node>, acc: string)
    ensures DraftCollect(cs, acc) == Sep(acc, JoinSpace(DraftTokens(cs)))
  {
    if |cs| > 0 {
      var tail := DraftTokens(cs[1..]);
      var ts := DraftTokenOf(cs[0]);
      DraftCollectJoins(cs[1..], if ts == [] then acc else Append(acc, ts[0]));
      if ts != [] {
        JoinCons(ts[0], tail);
        SepAssociative(acc, ts[0], JoinSpace(tail));
      } else {
        assert [] + tail == tail;
      }
    }
  }

  /** main.go's `getSubfieldsAsString` on a list of children. */
  function DraftFlatten(cs: seq<Node>): (r: string)
    ensures r == JoinSpace(DraftTokens(cs))
  {
    DraftCollectJoins(cs, "");
    DraftCollect(cs, "")
  }

  /** main.go's `getSubfieldsAsString`: nil gives the empty string; otherwise
      the space-join of the kept, trimmed `Data` of every child not named
      `span`, element or not, with no stop at a `5|` span. */
  function DraftSubfieldsAsString(n: Option<Node>): (r: string)
    ensures n.None? ==> r == ""
    ensures n.Some? ==> r == JoinSpace(DraftTokens(n.value.children))
  {
    match n
    case None => ""
    case Some(node) => DraftFlatten(node.children)
  }

  /** A node named `span`, the `5|` span included, is skipped by the draft
      and the scan goes on: text after it still appears. */
  lemma DraftSkipsSpans(before: seq<Node>, span: Node, after: seq<Node>)
    requires span.data == SpanTag
    ensures DraftFlatten(before + [span] + after) == DraftFlatten(before + after)
  {
    assert DraftTokens([span]) == DraftTokenOf(span) + DraftTokens([]);
    DraftTokensAppend(before, [span]);
    DraftTokensAppend(before + [span], after);
    DraftTokensAppend(before, after);
    assert DraftTokens(before) + [] == DraftTokens(before);
  }

  lemma {:induction false} TokensAgreeOnPlainText(cs: seq<Node>)
    requires forall i :: 0 <= i < |cs| ==> cs[i].nodeType != NodeType.ElementNode && cs[i].data != SpanTag
    ensures StopIndex(cs) == |cs| && FlattenSafe(cs)
    ensures TextTokens(cs) == DraftTokens(cs)
  {
    if |cs| > 0 {
      TokensAgreeOnPlainText(cs[1..]);
    }
  }

  /** On children that are neither elements nor named `span`, the two
      flatteners print the same text. */
  lemma DraftsAgreeOnPlainText(cs: seq<Node>)
    requires forall i :: 0 <= i < |cs| ==> cs[i].nodeType != NodeType.ElementNode && cs[i].data != SpanTag
    ensures FlattenSafe(cs)
    ensures FlattenChildren(cs) == DraftFlatten(cs)
  {
    TokensAgreeOnPlainText(cs);
    FlattenWithoutTerminator(cs);
  }

  lemma DraftTokensCons(c: Node, rest: seq<Node>)
    ensures DraftTokens([c] + rest) == DraftTokenOf(c) + DraftTokens(rest)
  {
    assert ([c] + rest)[1..] == rest;
  }

  lemma DraftTokensOfThree(a: Node, m: Node, b: Node)
    ensures DraftTokens([a, m, b]) == DraftTokenOf(a) + (DraftTokenOf(m) + DraftTokenOf(b))
  {
    assert [a, m, b] == [a] + [m, b];
    assert [m, b] == [m] + [b];
    assert [b] == [b] + [];
    DraftTokensCons(a, [m, b]);
    DraftTokensCons(m, [b]);
    DraftTokensCons(b, []);
    assert DraftTokenOf(b) + [] == DraftTokenOf(b);
  }

  lemma JoinTwo(x: string, y: string)
    ensures JoinSpace([x, y]) == x + " " + y
  {
    assert [x, y][1..] == [y];
  }

  lemma DraftFlattenOfTwoTokens(cs: seq<Node>, x: string, y: string)
    requires DraftTokens(cs) == [x, y]
    ensures DraftFlatten(cs) == x + " " + y
  {
    JoinTwo(x, y);
  }

  lemma ParseStopsAfterMarker(a: Node, marker: Node, b: Node)
    requires a.nodeType == NodeType.TextNode && Keep(TrimSpace(a.data))
    requires IsTerminator(marker)
    ensures FlattenSafe([a, marker, b])
    ensures FlattenChildren([a, marker, b]) == TrimSpace(a.data)
  {
    assert [a, marker, b] == [a] + [marker] + [b];
    assert TextTokens([a]) == TokenOf(a) + TextTokens([]);
    assert StopIndex([a]) == 1;
    TextStopsAtTerminator([a], marker, [b]);
    FlattenWithoutTerminator([a]);
  }

  lemma DraftContinuesAfterMarker(a: Node, marker: Node, b: Node)
    requires a.nodeType == NodeType.TextNode && Keep(TrimSpace(a.data))
    requires b.nodeType == NodeType.TextNode && Keep(TrimSpace(b.data))
    requires a.data != SpanTag && b.data != SpanTag
    requires IsTerminator(marker)
    ensures DraftFlatten([a, marker, b]) == TrimSpace(a.data) + " " + TrimSpace(b.data)
  {
    DraftTokensOfThree(a, marker, b);
    assert DraftTokens([a, marker, b]) == [TrimSpace(a.data), TrimSpace(b.data)];
    DraftFlattenOfTwoTokens([a, marker, b], TrimSpace(a.data), TrimSpace(b.data));
  }

  /** Text, a `5|` span, then more text (`Smith`, `5|`, `hidden`, say):
      parse.go prints only the first text, the draft prints both. */
  lemma DraftShowsTextAfterMarker(a: Node, marker: Node, b: Node)
    requires a.nodeType == NodeType.TextNode && Keep(TrimSpace(a.data))
    requires b.nodeType == NodeType.TextNode && Keep(TrimSpace(b.data))
    requires a.data != SpanTag && b.data != SpanTag
    requires IsTerminator(marker)
    ensures FlattenSafe([a, marker, b])
    ensures FlattenChildren([a, marker, b]) == TrimSpace(a.data)
    ensures DraftFlatten([a, marker, b]) == TrimSpace(a.data) + " " + TrimSpace(b.data)
  {
    ParseStopsAfterMarker(a, marker, b);
    DraftContinuesAfterMarker(a, marker, b);
  }

  /** A non-span element (a `<br>`, say) contributes nothing in parse.go,
      while the draft prints its tag name. */
  lemma DraftShowsElementNames(e: Node)
    requires e.nodeType == NodeType.ElementNode && e.data != SpanTag && Keep(TrimSpace(e.data))
    ensures FlattenSafe([e]) && FlattenChildren([e]) == ""
    ensures DraftFlatten([e]) == TrimSpace(e.data)
  {
    assert [e][1..] == [];
    assert StopIndex([e]) == 1;
    FlattenWithoutTerminator([e]);
    assert TextTokens([e]) == [];
    DraftTokensCons(e, []);
    assert [e] + [] == [e];
  }
}
