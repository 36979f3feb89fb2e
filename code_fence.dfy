/**
 * Pulling a JSON block out of a model's reply by splitting on Markdown fences, as the
 * Anthropic provider's proofreading (backend/app/providers/ai/anthropic/provider.py) and
 * the AI service's furigana and dictionary fallbacks (backend/app/services/ai/service.py)
 * each do with the same three lines.
 */
module CodeFence {
  import opened Wrappers
  import opened Strings
  import Seqs

  const Fence := "```"
  const JsonFence := "```json"

  /** `s.split("```")[0]`: everything before the first fence. */
  function BeforeFence(s: string): (r: string)
    ensures StartsWith(s, r)
    ensures !Contains(r, Fence)
    ensures !Contains(s, Fence) ==> r == s
    ensures Contains(s, Fence) ==> OccursAt(s, Fence, |r|)
  {
    match Find(s, Fence)
    case None => s
    case Some(i) =>
      assert !Contains(s[..i], Fence) by {
        forall j | 0 <= j <= |s[..i]| ensures !OccursAt(s[..i], Fence, j) {
          FenceInSlice(s, s[..i], 0, j);
        }
      }
      s[..i]
  }

  /** The text a reply is parsed from: after the first "```json" up to the next fence;
      failing that, between the first two fences; failing that, the whole reply. The
      fenced text is stripped. */
  function FenceText(s: string): (r: string)
    ensures !Contains(s, Fence) ==> r == s
    ensures Contains(s, Fence) ==> r == Strip(r) && !Contains(r, Fence)
  {
    match Find(s, JsonFence)
    case Some(i) => JsonFenceIsFence(s, i); StripNoFence(BeforeFence(s[i + |JsonFence|..]))
    case None =>
      match Find(s, Fence)
      case Some(i) => StripNoFence(BeforeFence(s[i + |Fence|..]))
      case None => s
  }

  /** A slice of `t` starting at `k` holds a fence only where `t` does. */
  lemma FenceInSlice(t: string, r: string, k: nat, j: nat)
    requires k + |r| <= |t| && r == t[k..k + |r|]
    ensures OccursAt(r, Fence, j) ==> OccursAt(t, Fence, k + j)
  {
    if j + 3 <= |r| {
      var a := r[j..j + 3];
      var b := t[k + j..k + j + 3];
      forall m | 0 <= m < 3
        ensures a[m] == b[m]
      {
        assert r[j + m] == t[k + j + m];
      }
      assert a == b;
    }
  }

  /** A text with a ```json fence has a fence. */
  lemma JsonFenceIsFence(s: string, i: int)
    requires OccursAt(s, JsonFence, i)
    ensures OccursAt(s, Fence, i)
  {
    assert s[i..i + 3] == s[i..i + 7][..3];
  }

  /** Stripping a text without a fence leaves one without a fence, which strips to
      itself. */
  function StripNoFence(t: string): (r: string)
    requires !Contains(t, Fence)
    ensures r == Strip(t) && r == Strip(r) && !Contains(r, Fence)
  {
    var r := Strip(t);
    var k := StripStart(t);
    assert !Contains(r, Fence) by {
      forall j | 0 <= j <= |r| ensures !OccursAt(r, Fence, j) {
        FenceInSlice(t, r, k, j);
      }
    }
    StripIdempotent(t);
    r
  }

  /** `strip()` applied twice is `strip()` applied once. */
  lemma StripIdempotent(s: string)
    ensures Strip(Strip(s)) == Strip(s)
  {
    StripUnpadded(Strip(s));
  }

  /** A text without backticks before `rest` puts the first occurrence of anything that
      starts with a backtick and opens `rest` at the join. */
  lemma {:induction false} FirstAtJoin(pre: string, rest: string, sub: string)
    requires |sub| > 0 && sub[0] == '`' && '`' !in pre && StartsWith(rest, sub)
    ensures Find(pre + rest, sub) == Some(|pre|)
  {
    var s := pre + rest;
    assert s[|pre|..|pre| + |sub|] == rest[..|sub|];
    assert OccursAt(s, sub, |pre|);
    forall j | 0 <= j < |pre| ensures !OccursAt(s, sub, j) {
      assert s[j] == pre[j] != '`';
      assert j + |sub| <= |s| ==> s[j..j + |sub|][0] == s[j];
    }
  }

  /** A text without backticks followed by a fence is all `split("```")[0]` keeps. */
  lemma BeforeFenceOf(body: string, post: string)
    requires '`' !in body
    ensures BeforeFence(body + (Fence + post)) == body
  {
    var t := body + (Fence + post);
    FirstAtJoin(body, Fence + post, Fence);
    assert t[..|body|] == body;
  }

  /** In a text without backticks followed by `fence` and `rest`, the search finds that
      fence, and `rest` is what follows it. */
  lemma FenceFound(pre: string, fence: string, rest: string)
    requires '`' !in pre && |fence| > 0 && fence[0] == '`'
    ensures Find(pre + (fence + rest), fence) == Some(|pre|)
    ensures (pre + (fence + rest))[|pre| + |fence|..] == rest
  {
    FirstAtJoin(pre, fence + rest, fence);
  }

  /** A reply holding a ```json block gives back that block's text, stripped, whatever
      follows it. */
  lemma JsonBlockExtracted(pre: string, body: string, post: string)
    requires '`' !in pre && '`' !in body
    ensures FenceText(pre + JsonFence + body + Fence + post) == Strip(body)
  {
    Seqs.Regroup(pre, JsonFence, body, Fence, post);
    var s := pre + (JsonFence + (body + (Fence + post)));
    FenceFound(pre, JsonFence, body + (Fence + post));
    BeforeFenceOf(body, post);
    assert FenceText(s) == StripNoFence(body);
  }

  /** A reply with a plain fenced block (and no ```json anywhere) gives back that block's
      text, stripped. */
  lemma PlainBlockExtracted(pre: string, body: string, post: string)
    requires '`' !in pre && '`' !in body
    requires !Contains(pre + Fence + body + Fence + post, JsonFence)
    ensures FenceText(pre + Fence + body + Fence + post) == Strip(body)
  {
    Seqs.Regroup(pre, Fence, body, Fence, post);
    var s := pre + (Fence + (body + (Fence + post)));
    FenceFound(pre, Fence, body + (Fence + post));
    BeforeFenceOf(body, post);
    assert Find(s, JsonFence).None?;
    assert FenceText(s) == StripNoFence(body);
  }
}
