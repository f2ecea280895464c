/**
 * The reply splitter of the backend (`parse_deepseek_response`).
 *
 * The model wraps its reasoning in `<think>`…`</think>`. The pattern
 * `<think>(.*?)</think>` with DOTALL is searched: the first opening tag
 * that has a closing tag after it starts the block, and the block ends at
 * the first closing tag after it, across newlines. The thinking text is the
 * stripped content of that block; the message is the reply with every such
 * block removed in one left-to-right pass, then stripped. Without a block
 * the reply is returned unchanged and there is no thinking text.
 */
module ThinkBlocks {
  import opened Options
  import opened Text

  const Open: string := "<think>"
  const Close: string := "</think>"

  /** `sub` occurs in `s` at `i`, compared one character at a time. */
  predicate MatchAt(s: string, sub: string, i: nat)
    decreases |sub|
  {
    i <= |s| && (|sub| == 0 || (i < |s| && s[i] == sub[0] && MatchAt(s, sub[1..], i + 1)))
  }

  lemma {:induction false} MatchAtIff(s: string, sub: string, i: nat)
    ensures MatchAt(s, sub, i) <==> OccursAt(s, sub, i)
    decreases |sub|
  {
    if |sub| > 0 && i < |s| {
      MatchAtIff(s, sub[1..], i + 1);
      if OccursAt(s, sub, i) {
        assert s[i] == s[i..][..|sub|][0];
        assert s[i + 1..][..|sub| - 1] == s[i..][..|sub|][1..];
      }
      if s[i] == sub[0] && OccursAt(s, sub[1..], i + 1) {
        assert s[i..][..|sub|] == [s[i]] + s[i + 1..][..|sub| - 1];
        assert sub == [sub[0]] + sub[1..];
      }
    }
  }

  /** The first index `i >= from` where `sub` occurs in `s`. */
  function FindFrom(s: string, sub: string, from: nat): (r: Option<nat>)
    ensures r.Some? ==> from <= r.value && r.value + |sub| <= |s|
    decreases |s| - from
  {
    if from + |sub| > |s| then None
    else if MatchAt(s, sub, from) then Some(from)
    else FindFrom(s, sub, from + 1)
  }

  /** The index found is an occurrence and the first one; without one there is none. */
  lemma {:induction false} FindFromSpec(s: string, sub: string, from: nat)
    ensures var r := FindFrom(s, sub, from);
      && (r.Some? ==> OccursAt(s, sub, r.value))
      && (r.Some? ==> forall k :: from <= k < r.value ==> !OccursAt(s, sub, k))
      && (r.None? ==> forall k :: from <= k ==> !OccursAt(s, sub, k))
    decreases |s| - from
  {
    MatchAtIff(s, sub, from);
    if from + |sub| <= |s| && !MatchAt(s, sub, from) {
      FindFromSpec(s, sub, from + 1);
    }
  }

  /** The first occurrence after `from` is the one that the search finds. */
  lemma {:induction false} FindFromIs(s: string, sub: string, from: nat, i: nat)
    requires from <= i && OccursAt(s, sub, i)
    requires forall k :: from <= k < i ==> !OccursAt(s, sub, k)
    ensures FindFrom(s, sub, from) == Some(i)
    decreases i - from
  {
    MatchAtIff(s, sub, from);
    if from < i {
      FindFromIs(s, sub, from + 1, i);
    }
  }

  /** A block `(a, j)`: the tag `o` at `a` and the tag `c` at `j` after it. */
  predicate IsBlock(s: string, o: string, c: string, a: int, j: int) {
    OccursAt(s, o, a) && a + |o| <= j && OccursAt(s, c, j)
  }

  /**
   * The leftmost match of `o(.*?)c` (DOTALL) at or after `from`: the first
   * `o` that has a `c` after it, with the first `c` after that `o`.
   */
  function FirstBlock(s: string, o: string, c: string, from: nat): (r: Option<(nat, nat)>)
    ensures r.Some? ==> from <= r.value.0 && r.value.0 + |o| <= r.value.1 && r.value.1 + |c| <= |s|
  {
    match FindFrom(s, o, from)
    case None => None
    case Some(a) =>
      match FindFrom(s, c, a + |o|)
      case None => None
      case Some(j) => Some((a, j))
  }

  /** The block found is the leftmost one, and there is none when nothing is found. */
  lemma FirstBlockSpec(s: string, o: string, c: string, from: nat)
    ensures var r := FirstBlock(s, o, c, from);
      && (r.Some? ==> IsBlock(s, o, c, r.value.0, r.value.1))
      && (r.Some? ==> forall k :: from <= k < r.value.0 ==> !OccursAt(s, o, k))
      && (r.Some? ==> forall k :: r.value.0 + |o| <= k < r.value.1 ==> !OccursAt(s, c, k))
      && (r.None? <==> forall a, j :: from <= a ==> !IsBlock(s, o, c, a, j))
  {
    FindFromSpec(s, o, from);
    var f := FindFrom(s, o, from);
    if f.Some? {
      FindFromSpec(s, c, f.value + |o|);
      var g := FindFrom(s, c, f.value + |o|);
      if g.None? {
        assert forall a, j :: from <= a ==> !IsBlock(s, o, c, a, j);
        assert FirstBlock(s, o, c, from).None?;
      } else {
        assert IsBlock(s, o, c, f.value, g.value);
      }
    }
  }

  /** `re.sub(o + '.*?' + c, '', s[from..], flags=re.DOTALL)`: every block removed, left to right. */
  function RemoveBlocks(s: string, o: string, c: string, from: nat): (r: string)
    requires from <= |s| && |c| > 0
    ensures |r| <= |s| - from
    decreases |s| - from
  {
    var b := FirstBlock(s, o, c, from);
    if b.None? then s[from..] else s[from..b.value.0] + RemoveBlocks(s, o, c, b.value.1 + |c|)
  }

  /** The pair `(thinking, final_message)`. */
  datatype Parsed = Parsed(thinking: Option<string>, message: string)

  /** `parse_deepseek_response(response)`. */
  function ParseDeepseekResponse(response: string): (r: Parsed)
    ensures r.thinking.None? <==> forall a, j :: !IsBlock(response, Open, Close, a, j)
  {
    FirstBlockSpec(response, Open, Close, 0);
    var b := FirstBlock(response, Open, Close, 0);
    if b.None? then Parsed(None, response)
    else Parsed(Some(PyStrip(response[b.value.0 + |Open|..b.value.1])), PyStrip(RemoveBlocks(response, Open, Close, 0)))
  }

  /** Without a block the reply is returned unchanged, with no thinking text. */
  lemma NoBlockUnchanged(response: string)
    requires !Contains(response, Open) || !Contains(response, Close)
    ensures ParseDeepseekResponse(response) == Parsed(None, response)
  {
    ContainsIff(response, Open);
    ContainsIff(response, Close);
  }

  // ---------------------------------------------------------------------
  // A reply of the form p <think> t </think> q

  /** A tag whose first character does not occur again in it cannot overlap itself. */
  predicate NoSelfOverlap(tag: string) {
    |tag| > 0 && forall d :: 0 < d < |tag| ==> tag[d] != tag[0]
  }

  lemma TagsNoSelfOverlap()
    ensures NoSelfOverlap(Open) && NoSelfOverlap(Close)
  {
  }

  /** An occurrence that starts before `|u|` and ends inside `u` is an occurrence in `u`. */
  lemma OccursInPrefix(u: string, v: string, sub: string, k: nat)
    requires OccursAt(u + v, sub, k) && k + |sub| <= |u|
    ensures OccursAt(u, sub, k)
  {
    assert (u + v)[k..][..|sub|] == u[k..][..|sub|];
  }

  /** No occurrence of such a tag starts fewer than `|tag|` characters before another. */
  lemma NoOverlap(s: string, tag: string, k: nat, a: nat)
    requires NoSelfOverlap(tag) && OccursAt(s, tag, a) && k < a < k + |tag|
    ensures !OccursAt(s, tag, k)
  {
    var d := a - k;
    assert s[a] == s[a..][..|tag|][0] == tag[0];
    assert tag[d] != tag[0];
    assert |s[k..]| >= |tag| ==> s[k..][..|tag|][d] == s[a];
  }

  /** Occurrences in `u + v` from `|u|` on are the occurrences in `v`, shifted. */
  lemma OccursShift(u: string, v: string, sub: string, k: int)
    requires |u| <= k
    ensures OccursAt(u + v, sub, k) <==> OccursAt(v, sub, k - |u|)
  {
    if k <= |u + v| {
      assert (u + v)[k..] == v[k - |u|..];
    }
  }

  /** A search result moved `n` places to the right. */
  function Shift(r: Option<nat>, n: nat): (q: Option<nat>)
    ensures q.None? <==> r.None?
    ensures q.Some? ==> q.value == r.value + n
  {
    match r case None => None case Some(i) => Some(n + i)
  }

  /** Searching `u + v` past `u` is searching `v`. */
  lemma {:induction false} FindFromShift(u: string, v: string, sub: string, x: nat)
    ensures FindFrom(u + v, sub, |u| + x) == Shift(FindFrom(v, sub, x), |u|)
    decreases |v| - x
  {
    if x + |sub| <= |v| {
      OccursShift(u, v, sub, |u| + x);
      MatchAtIff(u + v, sub, |u| + x);
      MatchAtIff(v, sub, x);
      if !OccursAt(v, sub, x) {
        FindFromShift(u, v, sub, x + 1);
      }
    }
  }

  /** A tag right after a text that does not hold it is the first one. */
  lemma FirstTag(p: string, rest: string, tag: string)
    requires NoSelfOverlap(tag) && !Contains(p, tag) && StartsWith(rest, tag)
    ensures FindFrom(p + rest, tag, 0) == Some(|p|)
  {
    var s := p + rest;
    assert s[|p|..] == rest;
    forall k | 0 <= k < |p| ensures !OccursAt(s, tag, k) {
      if k + |tag| <= |p| {
        if OccursAt(s, tag, k) {
          OccursInPrefix(p, rest, tag, k);
          ContainsAt(p, tag, k);
        }
      } else {
        NoOverlap(s, tag, k, |p|);
      }
    }
    FindFromIs(s, tag, 0, |p|);
  }

  /** The regroupings of `p + o + t + c + q` that the block proofs need. */
  lemma Regroup(p: string, o: string, t: string, c: string, q: string)
    ensures p + o + t + c + q == p + (o + t + c + q)
    ensures p + o + t + c + q == (p + o) + (t + (c + q))
    ensures p + o + t + c + q == (p + o + t + c) + q
    ensures StartsWith(o + t + c + q, o) && StartsWith(c + q, c)
  {
    assert (o + t + c + q)[..|o|] == o;
    assert (c + q)[..|c|] == c;
  }

  /** In `p + o + t + c + q` the first `o` is the one after `p`. */
  lemma OpenFirst(p: string, o: string, t: string, c: string, q: string)
    requires NoSelfOverlap(o) && !Contains(p, o)
    ensures FindFrom(p + o + t + c + q, o, 0) == Some(|p|)
  {
    Regroup(p, o, t, c, q);
    FirstTag(p, o + t + c + q, o);
  }

  /** In `p + o + t + c + q` the first `c` after `p + o` is the one after `t`. */
  lemma CloseFirst(p: string, o: string, t: string, c: string, q: string)
    requires NoSelfOverlap(c) && !Contains(t, c)
    ensures FindFrom(p + o + t + c + q, c, |p| + |o|) == Some(|p| + |o| + |t|)
  {
    Regroup(p, o, t, c, q);
    FirstTag(t, c + q, c);
    FindFromShift(p + o, t + (c + q), c, 0);
  }

  /** In `p + o + t + c + q` the first block is the one written out. */
  lemma FirstBlockOfConcat(p: string, o: string, t: string, c: string, q: string)
    requires NoSelfOverlap(o) && NoSelfOverlap(c)
    requires !Contains(p, o) && !Contains(t, c)
    ensures FirstBlock(p + o + t + c + q, o, c, 0) == Some((|p|, |p| + |o| + |t|))
  {
    OpenFirst(p, o, t, c, q);
    CloseFirst(p, o, t, c, q);
    BlockOfFinds(p, o, t, c, q);
  }

  lemma BlockOfFinds(p: string, o: string, t: string, c: string, q: string)
    requires FindFrom(p + o + t + c + q, o, 0) == Some(|p|)
    requires FindFrom(p + o + t + c + q, c, |p| + |o|) == Some(|p| + |o| + |t|)
    ensures FirstBlock(p + o + t + c + q, o, c, 0) == Some((|p|, |p| + |o| + |t|))
  {
  }

  lemma FirstBlockShift(u: string, v: string, o: string, c: string, x: nat)
    ensures FirstBlock(v, o, c, x).None? ==> FirstBlock(u + v, o, c, |u| + x).None?
    ensures FirstBlock(v, o, c, x).Some? ==>
      FirstBlock(u + v, o, c, |u| + x) == Some((|u| + FirstBlock(v, o, c, x).value.0, |u| + FirstBlock(v, o, c, x).value.1))
  {
    FindFromShift(u, v, o, x);
    var r := FindFrom(v, o, x);
    if r.Some? {
      FindFromShift(u, v, c, r.value + |o|);
    }
  }

  /** One step of the removal, when there is a block. */
  lemma RemoveStep(s: string, o: string, c: string, from: nat, a: nat, j: nat)
    requires from <= |s| && |c| > 0 && FirstBlock(s, o, c, from) == Some((a, j))
    ensures from <= a <= j && j + |c| <= |s|
    ensures RemoveBlocks(s, o, c, from) == s[from..a] + RemoveBlocks(s, o, c, j + |c|)
  {
    var b := FirstBlock(s, o, c, from);
    assert b.value == (a, j);
    assert RemoveBlocks(s, o, c, from) == s[from..b.value.0] + RemoveBlocks(s, o, c, b.value.1 + |c|);
  }


  /** The removal, when there is no block. */
  lemma RemoveNone(s: string, o: string, c: string, from: nat)
    requires from <= |s| && |c| > 0 && FirstBlock(s, o, c, from).None?
    ensures RemoveBlocks(s, o, c, from) == s[from..]
  {
  }

  /** Removal from inside `u + v`, past `u`, is removal from `v`. */
  lemma {:induction false} RemoveBlocksShift(u: string, v: string, o: string, c: string, x: nat)
    requires x <= |v| && |c| > 0
    ensures RemoveBlocks(u + v, o, c, |u| + x) == RemoveBlocks(v, o, c, x)
    decreases |v| - x, 1
  {
    FirstBlockShift(u, v, o, c, x);
    if FirstBlock(v, o, c, x).None? {
      RemoveNoneShift(u, v, o, c, x);
    } else {
      RemoveBlockShift(u, v, o, c, x);
    }
  }

  /** The shift when a block is found: the step, then the shift of the rest. */
  lemma {:induction false} RemoveBlockShift(u: string, v: string, o: string, c: string, x: nat)
    requires x <= |v| && |c| > 0 && FirstBlock(v, o, c, x).Some?
    ensures RemoveBlocks(u + v, o, c, |u| + x) == RemoveBlocks(v, o, c, x)
    decreases |v| - x, 0
  {
    FirstBlockShift(u, v, o, c, x);
    var a := FirstBlock(v, o, c, x).value.0;
    var j := FirstBlock(v, o, c, x).value.1;
    RemoveBlocksShift(u, v, o, c, j + |c|);
    RemoveShiftStep(u, v, o, c, x, a, j);
  }

  /** The shift when no block is left. */
  lemma RemoveNoneShift(u: string, v: string, o: string, c: string, x: nat)
    requires x <= |v| && |c| > 0
    requires FirstBlock(v, o, c, x).None? && FirstBlock(u + v, o, c, |u| + x).None?
    ensures RemoveBlocks(u + v, o, c, |u| + x) == RemoveBlocks(v, o, c, x)
  {
    RemoveNone(v, o, c, x);
    RemoveNone(u + v, o, c, |u| + x);
    assert (u + v)[|u| + x..] == v[x..];
  }

  /** One step of the shift: the text before the block is the same, the rest is shifted. */
  lemma RemoveShiftStep(u: string, v: string, o: string, c: string, x: nat, a: nat, j: nat)
    requires x <= |v| && |c| > 0
    requires FirstBlock(v, o, c, x) == Some((a, j))
    requires FirstBlock(u + v, o, c, |u| + x) == Some((|u| + a, |u| + j))
    requires RemoveBlocks(u + v, o, c, |u| + (j + |c|)) == RemoveBlocks(v, o, c, j + |c|)
    ensures RemoveBlocks(u + v, o, c, |u| + x) == RemoveBlocks(v, o, c, x)
  {
    RemoveStep(v, o, c, x, a, j);
    RemoveStepAt(u + v, o, c, |u| + x, |u| + a, |u| + j, |u| + (j + |c|));
    SliceShift(u, v, x, a);
    Glue(RemoveBlocks(u + v, o, c, |u| + x), (u + v)[|u| + x..|u| + a], RemoveBlocks(u + v, o, c, |u| + (j + |c|)),
         RemoveBlocks(v, o, c, x), v[x..a], RemoveBlocks(v, o, c, j + |c|));
  }

  /** Two texts made of equal pieces are equal. */
  lemma Glue(l: string, lp: string, lq: string, r: string, rp: string, rq: string)
    requires l == lp + lq && r == rp + rq && lp == rp && lq == rq
    ensures l == r
  {
  }

  /** `RemoveStep` with the resume index given by name. */
  lemma RemoveStepAt(s: string, o: string, c: string, from: nat, a: nat, j: nat, n: nat)
    requires from <= |s| && |c| > 0 && FirstBlock(s, o, c, from) == Some((a, j)) && n == j + |c|
    ensures RemoveBlocks(s, o, c, from) == s[from..a] + RemoveBlocks(s, o, c, n)
  {
    RemoveStep(s, o, c, from, a, j);
  }

  lemma SliceShift(u: string, v: string, x: nat, a: nat)
    requires x <= a <= |v|
    ensures (u + v)[|u| + x..|u| + a] == v[x..a]
  {
  }

  /** The block split of `p + o + t + c + q` with the general tags. */
  lemma SplitConcat(p: string, o: string, t: string, c: string, q: string)
    requires NoSelfOverlap(o) && NoSelfOverlap(c)
    requires !Contains(p, o) && !Contains(t, c)
    ensures var s := p + o + t + c + q;
      && FirstBlock(s, o, c, 0) == Some((|p|, |p| + |o| + |t|))
      && s[|p| + |o|..|p| + |o| + |t|] == t
      && RemoveBlocks(s, o, c, 0) == p + RemoveBlocks(q, o, c, 0)
  {
    FirstBlockOfConcat(p, o, t, c, q);
    RemoveConcat(p, o, t, c, q);
  }

  /** The pieces of `p + o + t + c + q` as slices. */
  lemma ConcatSlices(p: string, o: string, t: string, c: string, q: string)
    ensures (p + o + t + c + q)[0..|p|] == p
    ensures (p + o + t + c + q)[|p| + |o|..|p| + |o| + |t|] == t
  {
    var s := p + o + t + c + q;
    assert s == p + (o + t + c + q);
    assert s == (p + o) + (t + (c + q));
  }

  /** After a first block ending where `v` starts, the removal goes on in `v`. */
  lemma RemoveThenShift(u: string, v: string, o: string, c: string, a: nat, j: nat)
    requires |c| > 0 && FirstBlock(u + v, o, c, 0) == Some((a, j)) && j + |c| == |u|
    ensures RemoveBlocks(u + v, o, c, 0) == (u + v)[0..a] + RemoveBlocks(v, o, c, 0)
  {
    RemoveStepAt(u + v, o, c, 0, a, j, |u|);
    RemoveAfter(u, v, o, c);
    Glue(RemoveBlocks(u + v, o, c, 0), (u + v)[0..a], RemoveBlocks(u + v, o, c, |u|),
         (u + v)[0..a] + RemoveBlocks(v, o, c, 0), (u + v)[0..a], RemoveBlocks(v, o, c, 0));
  }

  /** Removal from the end of `u` on is removal from `v`. */
  lemma RemoveAfter(u: string, v: string, o: string, c: string)
    requires |c| > 0
    ensures RemoveBlocks(u + v, o, c, |u|) == RemoveBlocks(v, o, c, 0)
  {
    RemoveBlocksShift(u, v, o, c, 0);
  }

  lemma RemoveConcat(p: string, o: string, t: string, c: string, q: string)
    requires |c| > 0 && FirstBlock(p + o + t + c + q, o, c, 0) == Some((|p|, |p| + |o| + |t|))
    ensures var s := p + o + t + c + q;
      && s[|p| + |o|..|p| + |o| + |t|] == t
      && RemoveBlocks(s, o, c, 0) == p + RemoveBlocks(q, o, c, 0)
  {
    ConcatSlices(p, o, t, c, q);
    RemoveThenShift(p + o + t + c, q, o, c, |p|, |p| + |o| + |t|);
  }

  /**
   * The reply `p <think> t </think> q`, where `p` holds no opening tag and
   * `t` no closing tag (it may hold newlines), splits into the stripped `t`
   * and the stripped `p` followed by `q` with its own blocks removed.
   */
  lemma ParseConcat(p: string, t: string, q: string)
    requires !Contains(p, Open) && !Contains(t, Close)
    ensures ParseDeepseekResponse(p + Open + t + Close + q) ==
      Parsed(Some(PyStrip(t)), PyStrip(p + RemoveBlocks(q, Open, Close, 0)))
  {
    var s := p + Open + t + Close + q;
    TagsNoSelfOverlap();
    SplitConcat(p, Open, t, Close, q);
    var b := FirstBlock(s, Open, Close, 0);
    assert b.value == (|p|, |p| + |Open| + |t|);
    assert s[b.value.0 + |Open|..b.value.1] == t;
  }

  /** The message never holds more text than the reply. */
  lemma MessageNoLonger(response: string)
    ensures |ParseDeepseekResponse(response).message| <= |response|
  {
    if FirstBlock(response, Open, Close, 0).Some? {
      var r := RemoveBlocks(response, Open, Close, 0);
      ContainsTrim(r, IsPySpace);
      ContainsIff(r, PyStrip(r));
      var i :| OccursAt(r, PyStrip(r), i);
    }
  }
}
