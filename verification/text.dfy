/** String helpers: Go's `strings.TrimSpace` and the single-space join the
    extractor builds up one token at a time. */
module Text {

  /** Go's `unicode.IsSpace`: the Latin-1 spaces plus the other Unicode
      White_Space code points. */
  predicate IsSpace(c: char) {
    || c == ' ' || c == '\t' || c == '\n' || c == '\r'
    || c == '\U{000B}' || c == '\U{000C}' || c == '\U{0085}' || c == '\U{00A0}'
    || c == '\U{1680}' || ('\U{2000}' <= c <= '\U{200A}')
    || c == '\U{2028}' || c == '\U{2029}' || c == '\U{202F}' || c == '\U{205F}'
    || c == '\U{3000}'
  }

  predicate AllSpace(s: string) {
    forall i :: 0 <= i < |s| ==> IsSpace(s[i])
  }

  /** Neither end of `s` is white space. */
  predicate Trimmed(s: string) {
    s == [] || (!IsSpace(s[0]) && !IsSpace(s[|s| - 1]))
  }

  /** Length of the longest all-space prefix of `s`. */
  function LeadingSpaces(s: string): (k: nat)
    ensures k <= |s|
    ensures forall i :: 0 <= i < k ==> IsSpace(s[i])
    ensures k < |s| ==> !IsSpace(s[k])
  {
    if |s| > 0 && IsSpace(s[0]) then 1 + LeadingSpaces(s[1..]) else 0
  }

  /** Length of the longest all-space suffix of `s`. */
  function TrailingSpaces(s: string): (k: nat)
    ensures k <= |s|
    ensures forall i :: |s| - k <= i < |s| ==> IsSpace(s[i])
    ensures k < |s| ==> !IsSpace(s[|s| - 1 - k])
  {
    if |s| > 0 && IsSpace(s[|s| - 1]) then 1 + TrailingSpaces(s[..|s| - 1]) else 0
  }

  lemma PrefixAllSpace(s: string, k: nat)
    requires k <= |s|
    requires forall i :: 0 <= i < k ==> IsSpace(s[i])
    ensures AllSpace(s[..k])
  {
    assert forall i :: 0 <= i < k ==> s[..k][i] == s[i];
  }

  lemma SuffixAllSpace(s: string, k: nat)
    requires k <= |s|
    requires forall i :: |s| - k <= i < |s| ==> IsSpace(s[i])
    ensures AllSpace(s[|s| - k..])
  {
    var tail := s[|s| - k..];
    forall i | 0 <= i < |tail|
      ensures IsSpace(tail[i])
    {
      var j := |s| - k + i;
      assert tail[i] == s[j];
      assert |s| - k <= j < |s|;
    }
  }

  /** A string is all white space exactly when its trailing white space is all of it. */
  lemma AllSpaceIffTrailing(s: string)
    ensures AllSpace(s) <==> TrailingSpaces(s) == |s|
  {
    SuffixAllSpace(s, TrailingSpaces(s));
    assert s[|s| - |s|..] == s;
  }

  lemma AllSpaceSplit(s: string, k: nat)
    requires k <= |s|
    ensures AllSpace(s) <==> AllSpace(s[..k]) && AllSpace(s[k..])
  {
    if AllSpace(s[..k]) && AllSpace(s[k..]) {
      forall i | 0 <= i < |s|
        ensures IsSpace(s[i])
      {
        if i < k {
          assert s[..k][i] == s[i];
        } else {
          assert s[k..][i - k] == s[i];
        }
      }
    }
  }

  /** `strings.TrimSpace`: removes the maximal white-space prefix and suffix.
      The result is the slice of `s` that starts after the leading white
      space; everything after it is white space too. */
  function TrimSpace(s: string): (r: string)
    ensures Trimmed(r)
    ensures LeadingSpaces(s) + |r| <= |s|
    ensures r == s[LeadingSpaces(s)..LeadingSpaces(s) + |r|]
    ensures AllSpace(s[LeadingSpaces(s) + |r|..])
    ensures r == [] <==> AllSpace(s)
  {
    var a := LeadingSpaces(s);
    var rest := s[a..];
    var b := TrailingSpaces(rest);
    var r := rest[..|rest| - b];
    PrefixAllSpace(s, a);
    SuffixAllSpace(rest, b);
    AllSpaceSplit(s, a);
    AllSpaceIffTrailing(rest);
    assert s[a + |r|..] == rest[|rest| - b..];
    r
  }

  /** A string without surrounding white space is left unchanged. */
  lemma TrimSpaceOfTrimmed(s: string)
    requires Trimmed(s)
    ensures TrimSpace(s) == s
  {
    if s != [] {
      assert LeadingSpaces(s) == 0;
      assert TrailingSpaces(s) == 0;
    }
  }

  /** Trimming twice is trimming once. */
  lemma TrimSpaceIdempotent(s: string)
    ensures TrimSpace(TrimSpace(s)) == TrimSpace(s)
  {
    TrimSpaceOfTrimmed(TrimSpace(s));
  }

  /** Reference single-space join: the tokens in order, with one space
      between neighbours and none at either end. */
  function JoinSpace(ts: seq<string>): string {
    if |ts| == 0 then ""
    else if |ts| == 1 then ts[0]
    else ts[0] + " " + JoinSpace(ts[1..])
  }

  /** A token the extractor may emit: non-empty and trimmed. */
  predicate IsToken(t: string) {
    t != [] && Trimmed(t)
  }

  predicate AllTokens(ts: seq<string>) {
    forall i :: 0 <= i < |ts| ==> IsToken(ts[i])
  }

  /** Joins two pieces with a single space, dropping the separator when
      either piece is empty. */
  function Sep(a: string, b: string): (r: string)
    ensures a == "" ==> r == b
    ensures b == "" ==> r == a
    ensures a != "" && b != "" ==> r == a + " " + b
  {
    if a == "" then b else if b == "" then a else a + " " + b
  }

  lemma SepAssociative(a: string, b: string, c: string)
    ensures Sep(Sep(a, b), c) == Sep(a, Sep(b, c))
  {
    if a != "" && b != "" && c != "" {
      assert (a + " " + b) + " " + c == a + " " + (b + " " + c);
    }
  }

  /** Joining tokens yields the empty string only for no tokens. */
  lemma {:induction false} JoinEmptyIff(ts: seq<string>)
    requires AllTokens(ts)
    ensures JoinSpace(ts) == "" <==> ts == []
  {
    if |ts| > 1 {
      assert ts[0] != [];
      assert |JoinSpace(ts)| >= |ts[0]|;
    }
  }

  /** Prepending one token to a join is the same as separating it from the rest. */
  lemma JoinCons(t: string, ts: seq<string>)
    requires IsToken(t) && AllTokens(ts)
    ensures JoinSpace([t] + ts) == Sep(t, JoinSpace(ts))
  {
    JoinEmptyIff(ts);
    if ts != [] {
      assert ([t] + ts)[1..] == ts;
    }
  }

  /** Joining two token runs is separating their joins. */
  lemma {:induction false} JoinAppend(a: seq<string>, b: seq<string>)
    requires AllTokens(a) && AllTokens(b)
    ensures JoinSpace(a + b) == Sep(JoinSpace(a), JoinSpace(b))
  {
    if a == [] {
      assert a + b == b;
    } else {
      calc {
        JoinSpace(a + b);
        { assert a + b == [a[0]] + (a[1..] + b); JoinCons(a[0], a[1..] + b); }
        Sep(a[0], JoinSpace(a[1..] + b));
        { JoinAppend(a[1..], b); }
        Sep(a[0], Sep(JoinSpace(a[1..]), JoinSpace(b)));
        { SepAssociative(a[0], JoinSpace(a[1..]), JoinSpace(b)); }
        Sep(Sep(a[0], JoinSpace(a[1..])), JoinSpace(b));
        { assert a == [a[0]] + a[1..]; JoinCons(a[0], a[1..]); }
        Sep(JoinSpace(a), JoinSpace(b));
      }
    }
  }

  /** A space-join of tokens has no white space at either end, so trimming
      it changes nothing. */
  lemma {:induction false} JoinTrimmed(ts: seq<string>)
    requires AllTokens(ts)
    ensures Trimmed(JoinSpace(ts))
    ensures TrimSpace(JoinSpace(ts)) == JoinSpace(ts)
  {
    if |ts| > 1 {
      JoinTrimmed(ts[1..]);
      JoinEmptyIff(ts[1..]);
      var rest := JoinSpace(ts[1..]);
      var r := ts[0] + " " + rest;
      assert r[0] == ts[0][0];
      assert r[|r| - 1] == rest[|rest| - 1];
    }
    TrimSpaceOfTrimmed(JoinSpace(ts));
  }
}
