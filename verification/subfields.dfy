/** The subfield flattener of parse.go, `getSubfieldsAsString`
    (parse.go:160-180): the display text of one field. */
module Subfields {
  import opened Wrappers
  import opened Text
  import opened Dom
  import opened Markup

  predicate IsSpanElement(c: Node) {
    c.nodeType == ElementNode && c.data == SpanTag
  }

  /** A `span` element whose first child's text is exactly `5|`: the point
      after which nothing is displayed. */
  predicate IsTerminator(c: Node) {
    IsSpanElement(c) && |c.children| > 0 && c.children[0].data == Delimiter
  }

  /** Text kept for display: neither empty nor the `UNAUTHORIZED` placeholder. */
  predicate Keep(text: string) {
    text != "" && text != Unauthorized
  }

  /** The flattening loop never reads `FirstChild` of a childless `span`
      element before it reaches a terminator. */
  predicate FlattenSafe(cs: seq<Node>) {
    |cs| == 0 ||
    ((IsSpanElement(cs[0]) ==> |cs[0].children| > 0) && (IsTerminator(cs[0]) || FlattenSafe(cs[1..])))
  }

  /** Position of the first terminator in `cs`, or `|cs|`. */
  function StopIndex(cs: seq<Node>): (k: nat)
    ensures k <= |cs|
    ensures forall i :: 0 <= i < k ==> !IsTerminator(cs[i])
    ensures k < |cs| ==> IsTerminator(cs[k])
  {
    if |cs| == 0 then 0
    else if IsTerminator(cs[0]) then 0
    else 1 + StopIndex(cs[1..])
  }

  /** The tokens a node contributes on its own: the trimmed text of a
      non-element node, when kept. */
  function TokenOf(c: Node): (ts: seq<string>)
    ensures AllTokens(ts) && |ts| <= 1
  {
    if c.nodeType == ElementNode then []
    else
      var text := TrimSpace(c.data);
      if Keep(text) then [text] else []
  }

  /** Reference listing of display tokens: the kept, trimmed texts of the
      non-element nodes of `cs`, in order. */
  function TextTokens(cs: seq<Node>): (ts: seq<string>)
    ensures AllTokens(ts)
    ensures |ts| <= |cs|
  {
    if |cs| == 0 then [] else TokenOf(cs[0]) + TextTokens(cs[1..])
  }

  lemma {:induction false} TextTokensAppend(a: seq<Node>, b: seq<Node>)
    ensures TextTokens(a + b) == TextTokens(a) + TextTokens(b)
  {
    if a == [] {
      assert a + b == b;
    } else {
      assert (a + b)[0] == a[0];
      assert (a + b)[1..] == a[1..] + b;
      TextTokensAppend(a[1..], b);
    }
  }

  /** One step of the accumulation: the token goes after the text so far,
      separated from it by one space unless nothing has been accumulated yet. */
  function Append(acc: string, text: string): (r: string)
    requires text != ""
    ensures r == Sep(acc, text)
  {
    (if acc != "" then acc + " " else acc) + text
  }

  /** The loop of `getSubfieldsAsString` over `cs`, with `acc` the text
      accumulated so far. */
  function Collect(cs: seq<Node>, acc: string): string
    requires FlattenSafe(cs)
  {
    if |cs| == 0 then acc
    else if cs[0].nodeType == ElementNode then
      if cs[0].data == SpanTag && cs[0].children[0].data == Delimiter then acc
      else Collect(cs[1..], acc)
    else
      var text := TrimSpace(cs[0].data);
      if text != "" && text != Unauthorized then Collect(cs[1..], Append(acc, text))
      else Collect(cs[1..], acc)
  }

  /** The loop appends to `acc` the space-join of the tokens before the
      first terminator. */
  lemma {:induction false} CollectJoins(cs: seq<Node>, acc: string)
    requires FlattenSafe(cs)
    ensures Collect(cs, acc) == Sep(acc, JoinSpace(TextTokens(cs[..StopIndex(cs)])))
  {
    if |cs| == 0 {
    } else if IsTerminator(cs[0]) {
    } else {
      var rest := cs[1..];
      var k := StopIndex(rest);
      assert cs[..StopIndex(cs)] == [cs[0]] + rest[..k];
      TextTokensAppend([cs[0]], rest[..k]);
      assert TextTokens([cs[0]]) == TokenOf(cs[0]);
      var tail := TextTokens(rest[..k]);
      CollectJoins(rest, if TokenOf(cs[0]) == [] then acc else Append(acc, TokenOf(cs[0])[0]));
      if TokenOf(cs[0]) != [] {
        var t := TokenOf(cs[0])[0];
        JoinCons(t, tail);
        SepAssociative(acc, t, JoinSpace(tail));
      } else {
        assert [] + tail == tail;
      }
    }
  }

  /** The display tokens of a run of children: those before the first terminator. */
  function ShownTokens(cs: seq<Node>): (ts: seq<string>)
    ensures AllTokens(ts)
  {
    TextTokens(cs[..StopIndex(cs)])
  }

  /** The loop of `getSubfieldsAsString` run from an empty accumulator. */
  function FlattenChildren(cs: seq<Node>): (r: string)
    requires FlattenSafe(cs)
    ensures r == JoinSpace(ShownTokens(cs))
  {
    CollectJoins(cs, "");
    Collect(cs, "")
  }

  /** `getSubfieldsAsString`: nil gives the empty string; otherwise the
      space-join of the kept, trimmed texts of the non-element children that
      come before the first `5|` span. */
  function SubfieldsAsString(n: Option<Node>): (r: string)
    requires n.Some? ==> FlattenSafe(n.value.children)
    ensures n.None? ==> r == ""
    ensures n.Some? ==> r == JoinSpace(TextTokens(n.value.children[..StopIndex(n.value.children)]))
  {
    match n
    case None => ""
    case Some(node) => FlattenChildren(node.children)
  }

  /** Without a terminator every child is considered. */
  lemma FlattenWithoutTerminator(cs: seq<Node>)
    requires StopIndex(cs) == |cs| && FlattenSafe(cs)
    ensures FlattenChildren(cs) == JoinSpace(TextTokens(cs))
  {
    assert cs[..StopIndex(cs)] == cs;
  }

  lemma {:induction false} FlattenSafeAppend(a: seq<Node>, b: seq<Node>)
    requires StopIndex(a) == |a|
    ensures FlattenSafe(a + b) <==> FlattenSafe(a) && FlattenSafe(b)
  {
    if a == [] {
      assert a + b == b;
    } else {
      assert (a + b)[0] == a[0];
      assert (a + b)[1..] == a[1..] + b;
      FlattenSafeAppend(a[1..], b);
    }
  }

  lemma {:induction false} StopIndexAppend(a: seq<Node>, b: seq<Node>)
    requires StopIndex(a) == |a|
    ensures StopIndex(a + b) == |a| + StopIndex(b)
  {
    if a == [] {
      assert a + b == b;
    } else {
      assert (a + b)[0] == a[0];
      assert (a + b)[1..] == a[1..] + b;
      StopIndexAppend(a[1..], b);
    }
  }

  lemma PrefixOfAppend(a: seq<Node>, b: seq<Node>, k: nat)
    requires k <= |b|
    ensures (a + b)[..|a| + k] == a + b[..k]
  {
  }

  lemma ShownOfAppend(a: seq<Node>, b: seq<Node>)
    requires StopIndex(a) == |a|
    ensures ShownTokens(a + b) == TextTokens(a + b[..StopIndex(b)])
  {
    var k := StopIndex(b);
    var ab := a + b;
    assert StopIndex(ab) == |a| + k by { StopIndexAppend(a, b); }
    assert ab[..StopIndex(ab)] == a + b[..k] by { PrefixOfAppend(a, b, k); }
  }

  /** Children before any terminator pass their tokens straight through. */
  lemma ShownTokensAppend(a: seq<Node>, b: seq<Node>)
    requires StopIndex(a) == |a|
    ensures ShownTokens(a + b) == TextTokens(a) + ShownTokens(b)
  {
    ShownOfAppend(a, b);
    TextTokensAppend(a, b[..StopIndex(b)]);
  }

  /** Children are flattened left to right: the text of a run with no
      terminator, followed by more children, is the run's text and the rest's
      text separated by one space (none when either is empty). */
  lemma FlattenAppend(a: seq<Node>, b: seq<Node>)
    requires StopIndex(a) == |a| && FlattenSafe(a) && FlattenSafe(b)
    ensures FlattenSafe(a + b)
    ensures FlattenChildren(a + b) == Sep(FlattenChildren(a), FlattenChildren(b))
  {
    FlattenSafeAppend(a, b);
    ShownTokensAppend(a, b);
    FlattenWithoutTerminator(a);
    JoinAppend(TextTokens(a), ShownTokens(b));
  }

  /** Nothing after a `5|` span is displayed: whatever follows the first
      terminator, the text is that of the children before it. */
  lemma TextStopsAtTerminator(before: seq<Node>, marker: Node, after: seq<Node>)
    requires StopIndex(before) == |before| && FlattenSafe(before)
    requires IsTerminator(marker)
    ensures FlattenSafe(before + [marker] + after)
    ensures FlattenChildren(before + [marker] + after) == FlattenChildren(before)
  {
    assert before + [marker] + after == before + ([marker] + after);
    FlattenSafeAppend(before, [marker] + after);
    ShownTokensAppend(before, [marker] + after);
    ShownTokensAppend(before, []);
    assert before + [] == before;
  }

  /** A node that is not a terminator and contributes no token of its own
      leaves the text unchanged wherever it sits before the terminator. */
  lemma SilentChildContributesNothing(before: seq<Node>, c: Node, after: seq<Node>)
    requires StopIndex(before) == |before| && FlattenSafe(before)
    requires !IsTerminator(c) && (IsSpanElement(c) ==> |c.children| > 0) && TokenOf(c) == []
    requires FlattenSafe(after)
    ensures FlattenSafe(before + [c] + after) && FlattenSafe(before + after)
    ensures FlattenChildren(before + [c] + after) == FlattenChildren(before + after)
  {
    var bc := before + [c];
    assert StopIndex([c]) == 1;
    StopIndexAppend(before, [c]);
    FlattenSafeAppend(before, [c]);
    FlattenSafeAppend(bc, after);
    FlattenSafeAppend(before, after);
    assert TextTokens([c]) == [] by {
      assert TextTokens([c]) == TokenOf(c) + TextTokens([]);
    }
    calc {
      ShownTokens(bc + after);
      { ShownTokensAppend(bc, after); }
      TextTokens(bc) + ShownTokens(after);
      { TextTokensAppend(before, [c]); assert TextTokens(before) + [] == TextTokens(before); }
      TextTokens(before) + ShownTokens(after);
      { ShownTokensAppend(before, after); }
      ShownTokens(before + after);
    }
  }

  /** An element child other than a terminator adds nothing to the text. */
  lemma ElementContributesNothing(before: seq<Node>, e: Node, after: seq<Node>)
    requires StopIndex(before) == |before| && FlattenSafe(before)
    requires e.nodeType == ElementNode && !IsTerminator(e) && (IsSpanElement(e) ==> |e.children| > 0)
    requires FlattenSafe(after)
    ensures FlattenSafe(before + [e] + after) && FlattenSafe(before + after)
    ensures FlattenChildren(before + [e] + after) == FlattenChildren(before + after)
  {
    SilentChildContributesNothing(before, e, after);
  }

  /** A text child whose trimmed text is empty or `UNAUTHORIZED` adds
      nothing to the text. */
  lemma DroppedTextContributesNothing(before: seq<Node>, t: Node, after: seq<Node>)
    requires StopIndex(before) == |before| && FlattenSafe(before)
    requires t.nodeType != ElementNode && !Keep(TrimSpace(t.data))
    requires FlattenSafe(after)
    ensures FlattenSafe(before + [t] + after) && FlattenSafe(before + after)
    ensures FlattenChildren(before + [t] + after) == FlattenChildren(before + after)
  {
    SilentChildContributesNothing(before, t, after);
  }

  /** The display text has no white space at either end: separators are
      single spaces between non-empty trimmed tokens. */
  lemma SubfieldsTextTrimmed(n: Option<Node>)
    requires n.Some? ==> FlattenSafe(n.value.children)
    ensures Trimmed(SubfieldsAsString(n))
    ensures TrimSpace(SubfieldsAsString(n)) == SubfieldsAsString(n)
  {
    if n.Some? {
      JoinTrimmed(TextTokens(n.value.children[..StopIndex(n.value.children)]));
    }
  }
}
