/**
 * `_split_into_chunks` of backend/app/services/url_importer.py: a long text is cut
 * at blank lines (or, when it has none, at Japanese sentence ends), short paragraphs
 * are merged with a blank line between them, and a paragraph longer than the limit
 * is cut into fixed-size slices.
 */
module ChunkSplit {
  import opened Wrappers
  import opened Strings

  // ---------------------------------------------------------------------------
  // `re.split` on the two patterns the splitter uses

  /** `\n\s*\n` (a blank line) and `[。！？]\s*` (a sentence end with the space after it). */
  datatype Pattern = BlankLine | SentenceEnd

  predicate IsSentenceMark(c: char) {
    c == '。' || c == '！' || c == '？'
  }

  /** The end of the longest run of whitespace that starts at `i`. */
  function SpaceRunEnd(s: string, i: nat): (j: nat)
    requires i <= |s|
    ensures i <= j <= |s| && (j == |s| || !IsSpace(s[j]))
    ensures forall k :: i <= k < j ==> IsSpace(s[k])
    decreases |s| - i
  {
    if i < |s| && IsSpace(s[i]) then SpaceRunEnd(s, i + 1) else i
  }

  /** The last newline of `s[lo..hi]`. */
  function LastNewline(s: string, lo: nat, hi: nat): (r: Option<nat>)
    requires lo <= hi <= |s|
    ensures r.Some? ==> lo <= r.value < hi && s[r.value] == '\n'
    ensures r.None? ==> forall k :: lo <= k < hi ==> s[k] != '\n'
    decreases hi - lo
  {
    if hi == lo then None
    else if s[hi - 1] == '\n' then Some(hi - 1)
    else LastNewline(s, lo, hi - 1)
  }

  /**
   * Where a match of `p` that starts at `i` ends, if one starts there. Python's `re`
   * tries the greedy `\s*` longest first, so a blank-line match runs to the last newline
   * of the whitespace that follows the first one.
   */
  function MatchEnd(p: Pattern, s: string, i: nat): (r: Option<nat>)
    requires i <= |s|
    ensures r.Some? ==> i < r.value <= |s|
  {
    if i == |s| then None
    else match p
      case BlankLine =>
        if s[i] != '\n' then None
        else (match LastNewline(s, i + 1, SpaceRunEnd(s, i + 1))
          case Some(k) => Some(k + 1)
          case None => None)
      case SentenceEnd =>
        if IsSentenceMark(s[i]) then Some(SpaceRunEnd(s, i + 1)) else None
  }

  /** Span `k - 1` ends before span `k` starts. */
  ghost predicate Before(r: seq<(nat, nat)>, k: nat)
    requires 0 < k < |r|
  {
    r[k - 1].1 < r[k].0
  }

  /** The spans `[a, b)` are in order, start at `start`, end at `len`, and leave gaps between them. */
  ghost predicate Chain(r: seq<(nat, nat)>, start: nat, len: nat) {
    |r| >= 1 && r[0].0 == start && r[|r| - 1].1 == len
    && (forall k :: 0 <= k < |r| ==> r[k].0 <= r[k].1 <= len)
    && (forall k :: 0 < k < |r| ==> Before(r, k))
  }

  /** The gap before span `k` is a match of `p`. */
  ghost predicate Linked(p: Pattern, s: string, r: seq<(nat, nat)>, k: nat)
    requires 0 < k < |r| && r[k - 1].1 <= |s|
  {
    MatchEnd(p, s, r[k - 1].1) == Some(r[k].0)
  }

  /** The pieces `re.split` keeps, as spans of `s`, scanning from `i` inside a piece that began at `start`. */
  function SpansFrom(p: Pattern, s: string, start: nat, i: nat): (r: seq<(nat, nat)>)
    requires start <= i <= |s|
    ensures |r| >= 1
    decreases |s| - i
  {
    if i == |s| then [(start, |s|)]
    else match MatchEnd(p, s, i)
      case Some(e) => [(start, i)] + SpansFrom(p, s, e, e)
      case None => SpansFrom(p, s, start, i + 1)
  }

  /** What makes the spans a faithful `re.split`: matches link them and none starts inside one. */
  ghost predicate SplitSpans(p: Pattern, s: string, r: seq<(nat, nat)>, start: nat) {
    && Chain(r, start, |s|)
    && (forall k :: 0 < k < |r| ==> Linked(p, s, r, k))
    && (forall k, q :: 0 <= k < |r| && r[k].0 <= q < r[k].1 ==> MatchEnd(p, s, q).None?)
  }

  lemma {:induction false} SpansFromFacts(p: Pattern, s: string, start: nat, i: nat)
    requires start <= i <= |s|
    requires forall q :: start <= q < i ==> MatchEnd(p, s, q).None?
    ensures SplitSpans(p, s, SpansFrom(p, s, start, i), start)
    decreases |s| - i
  {
    if i < |s| {
      match MatchEnd(p, s, i)
      case Some(e) =>
        SpansFromFacts(p, s, e, e);
        ConsSpan(p, s, start, i, e, SpansFrom(p, s, e, e));
      case None =>
        SpansFromFacts(p, s, start, i + 1);
    }
  }

  /** A match-free piece `[start, i)` followed by a match ending at `e` extends spans that start at `e`. */
  lemma ConsSpan(p: Pattern, s: string, start: nat, i: nat, e: nat, rec: seq<(nat, nat)>)
    requires start <= i < e <= |s| && MatchEnd(p, s, i) == Some(e)
    requires forall q :: start <= q < i ==> MatchEnd(p, s, q).None?
    requires SplitSpans(p, s, rec, e)
    ensures SplitSpans(p, s, [(start, i)] + rec, start)
  {
    var r := [(start, i)] + rec;
    assert Chain(r, start, |s|) by {
      forall k | 1 < k < |r|
        ensures Before(r, k)
      {
        assert Before(rec, k - 1);
      }
      assert Before(r, 1);
    }
    assert forall k :: 0 < k < |r| ==> Linked(p, s, r, k) by {
      forall k | 1 < k < |r|
        ensures Linked(p, s, r, k)
      {
        assert Linked(p, s, rec, k - 1);
      }
      assert Linked(p, s, r, 1);
    }
    forall k, q | 0 <= k < |r| && r[k].0 <= q < r[k].1
      ensures MatchEnd(p, s, q).None?
    {
      if k > 0 {
        assert r[k] == rec[k - 1];
      }
    }
  }

  function Spans(p: Pattern, s: string): (r: seq<(nat, nat)>)
    ensures SplitSpans(p, s, r, 0)
  {
    SpansFromFacts(p, s, 0, 0);
    SpansFrom(p, s, 0, 0)
  }

  function PiecesOf(s: string, r: seq<(nat, nat)>): (ps: seq<string>)
    requires |r| >= 1 && Chain(r, r[0].0, |s|)
    ensures |ps| == |r|
  {
    seq(|r|, k requires 0 <= k < |r| => s[r[k].0..r[k].1])
  }

  function GapsOf(s: string, r: seq<(nat, nat)>): (gs: seq<string>)
    requires |r| >= 1 && Chain(r, r[0].0, |s|)
    ensures |gs| == |r| - 1
  {
    seq(|r| - 1, k requires 0 <= k < |r| - 1 => assert Before(r, k + 1); s[r[k].1..r[k + 1].0])
  }

  /** `re.split(p, s)`: the text between the matches. */
  function ReSplit(p: Pattern, s: string): (r: seq<string>)
    ensures |r| >= 1
  {
    PiecesOf(s, Spans(p, s))
  }

  /** The matched separators that `re.split` drops, in order. */
  function Separators(p: Pattern, s: string): (r: seq<string>)
    ensures |r| == |ReSplit(p, s)| - 1
  {
    GapsOf(s, Spans(p, s))
  }

  /** Puts the separators back between the pieces: `pieces[0] + seps[0] + pieces[1] + …`. */
  function Weave(pieces: seq<string>, seps: seq<string>): string
    requires |pieces| == |seps| + 1
  {
    if |seps| == 0 then pieces[0] else pieces[0] + seps[0] + Weave(pieces[1..], seps[1..])
  }

  /** The shape of one match of `p`. */
  predicate IsMatch(p: Pattern, m: string) {
    match p
    case BlankLine => |m| >= 2 && m[0] == '\n' && m[|m| - 1] == '\n' && AllSpace(m)
    case SentenceEnd => |m| >= 1 && IsSentenceMark(m[0]) && AllSpace(m[1..])
  }

  /** `s` holds a match of `p` somewhere. */
  predicate HasMatch(p: Pattern, s: string) {
    match p
    case BlankLine =>
      exists i, j :: 0 <= i < j < |s| && s[i] == '\n' && s[j] == '\n' && AllSpace(s[i..j])
    case SentenceEnd => exists c :: c in s && IsSentenceMark(c)
  }

  lemma {:induction false} WeaveSpans(s: string, r: seq<(nat, nat)>, start: nat)
    requires Chain(r, start, |s|)
    ensures Weave(PiecesOf(s, r), GapsOf(s, r)) == s[start..]
    decreases |r|
  {
    if |r| > 1 {
      ChainTail(s, r, start);
      var rest := r[1..];
      WeaveSpans(s, rest, r[1].0);
      var ps, gs := PiecesOf(s, r), GapsOf(s, r);
      assert Before(r, 1);
      assert Weave(ps, gs) == s[start..r[0].1] + s[r[0].1..r[1].0] + s[r[1].0..];
      assert s[start..] == s[start..r[0].1] + s[r[0].1..r[1].0] + s[r[1].0..];
    }
  }

  /** Dropping the first span leaves a chain whose pieces and gaps are the tails of the original ones. */
  lemma ChainTail(s: string, r: seq<(nat, nat)>, start: nat)
    requires Chain(r, start, |s|) && |r| > 1
    ensures Chain(r[1..], r[1].0, |s|)
    ensures PiecesOf(s, r)[1..] == PiecesOf(s, r[1..])
    ensures GapsOf(s, r)[1..] == GapsOf(s, r[1..])
  {
    var rest := r[1..];
    assert Chain(rest, r[1].0, |s|) by {
      forall k | 0 < k < |rest|
        ensures Before(rest, k)
      {
        assert Before(r, k + 1);
      }
    }
    assert forall k :: 0 <= k < |rest| ==> rest[k] == r[k + 1];
  }

  /** Splitting and putting the separators back gives the text again; every separator is a match. */
  lemma ReSplitRejoins(p: Pattern, s: string)
    ensures Weave(ReSplit(p, s), Separators(p, s)) == s
    ensures forall k :: 0 <= k < |Separators(p, s)| ==> IsMatch(p, Separators(p, s)[k])
  {
    var sp := Spans(p, s);
    WeaveSpans(s, sp, 0);
    var seps := Separators(p, s);
    forall k | 0 <= k < |seps|
      ensures IsMatch(p, seps[k])
    {
      var a, b := sp[k].1, sp[k + 1].0;
      assert Linked(p, s, sp, k + 1);
      assert seps[k] == s[a..b];
      MatchShape(p, s, a);
    }
  }

  lemma MatchShape(p: Pattern, s: string, i: nat)
    requires i <= |s| && MatchEnd(p, s, i).Some?
    ensures IsMatch(p, s[i..MatchEnd(p, s, i).value])
  {
    var e := MatchEnd(p, s, i).value;
    var m := s[i..e];
    match p
    case BlankLine =>
      var run := SpaceRunEnd(s, i + 1);
      assert forall k :: i <= k < e ==> IsSpace(s[k]);
      assert forall k :: 0 <= k < |m| ==> m[k] == s[i + k];
    case SentenceEnd =>
      assert forall k :: 1 <= k < |m| ==> m[k] == s[i + k];
  }

  /** No piece that `re.split` keeps holds a match of the pattern. */
  lemma PiecesHoldNoMatch(p: Pattern, s: string)
    ensures forall k :: 0 <= k < |ReSplit(p, s)| ==> !HasMatch(p, ReSplit(p, s)[k])
  {
    var sp := Spans(p, s);
    var ps := ReSplit(p, s);
    forall k | 0 <= k < |ps|
      ensures !HasMatch(p, ps[k])
    {
      var a := sp[k].0;
      var piece := ps[k];
      assert piece == s[a..sp[k].1];
      match p
      case BlankLine =>
        if i, j :| 0 <= i < j < |piece| && piece[i] == '\n' && piece[j] == '\n' && AllSpace(piece[i..j]) {
          assert forall k :: a + i <= k < a + j ==> s[k] == piece[i..j][k - a - i];
          BlankLineFound(s, a + i, a + j);
        }
      case SentenceEnd =>
        if c :| c in piece && IsSentenceMark(c) {
          var q :| 0 <= q < |piece| && piece[q] == c;
          SentenceMarkMatches(s, a + q);
        }
    }
  }

  lemma SentenceMarkMatches(s: string, i: nat)
    requires i < |s| && IsSentenceMark(s[i])
    ensures MatchEnd(SentenceEnd, s, i).Some?
  {
  }

  lemma BlankLineFound(s: string, i: nat, j: nat)
    requires i < j < |s| && s[i] == '\n' && s[j] == '\n'
    requires forall k :: i <= k < j ==> IsSpace(s[k])
    ensures MatchEnd(BlankLine, s, i).Some?
  {
    RunCovers(s, i + 1, j);
  }

  /** A whitespace run that starts at `i` reaches past every whitespace-only stretch from `i`. */
  lemma {:induction false} RunCovers(s: string, i: nat, j: nat)
    requires i <= j < |s|
    requires forall k :: i <= k <= j ==> IsSpace(s[k])
    ensures j < SpaceRunEnd(s, i)
    decreases j - i
  {
    if i < j {
      RunCovers(s, i + 1, j);
    }
  }

  /** A piece of an all-whitespace text is all whitespace. */
  lemma BlankPieces(p: Pattern, s: string)
    requires AllSpace(s)
    ensures forall k :: 0 <= k < |ReSplit(p, s)| ==> AllSpace(ReSplit(p, s)[k])
  {
    var sp := Spans(p, s);
    forall k | 0 <= k < |sp|
      ensures AllSpace(ReSplit(p, s)[k])
    {
      var piece := ReSplit(p, s)[k];
      assert forall q :: 0 <= q < |piece| ==> piece[q] == s[sp[k].0 + q];
    }
  }

  /** A sentence-end split leaves no sentence mark in any piece. */
  lemma SentencePiecesUnmarked(s: string)
    ensures forall k :: 0 <= k < |ReSplit(SentenceEnd, s)| ==> Unmarked(ReSplit(SentenceEnd, s)[k])
  {
    PiecesHoldNoMatch(SentenceEnd, s);
  }

  /**
   * The paragraphs `_split_into_chunks` works on: the blank-line split, or the
   * sentence-end split when the text has no blank line.
   */
  function Paragraphs(text: string): (r: seq<string>)
  {
    var byBlank := ReSplit(BlankLine, text);
    if |byBlank| == 1 then ReSplit(SentenceEnd, text) else byBlank
  }

  // ---------------------------------------------------------------------------
  // Packing paragraphs into chunks

  predicate Unmarked(s: string) {
    forall c :: c in s ==> !IsSentenceMark(c)
  }

  /** `[s[i:i + n] for i in range(0, len(s), n)]` */
  function Slices(s: string, n: nat): (r: seq<string>)
    requires n > 0
    ensures Concat(r) == s
    ensures forall k :: 0 <= k < |r| ==> 0 < |r[k]| <= n
    ensures forall k, c :: 0 <= k < |r| && c in r[k] ==> c in s
    decreases |s|
  {
    if s == [] then []
    else if |s| <= n then
      assert Concat([s]) == s + Concat([]);
      [s]
    else
      var rest := Slices(s[n..], n);
      assert Concat([s[..n]] + rest) == s[..n] + Concat(rest) by {
        assert ([s[..n]] + rest)[1..] == rest;
      }
      assert s == s[..n] + s[n..];
      [s[..n]] + rest
  }

  function Singles(xs: seq<string>): (r: seq<seq<string>>)
    ensures |r| == |xs| && forall k :: 0 <= k < |xs| ==> r[k] == [xs[k]]
  {
    seq(|xs|, k requires 0 <= k < |xs| => [xs[k]])
  }

  function Flatten<T>(xss: seq<seq<T>>): seq<T> {
    if xss == [] then [] else xss[0] + Flatten(xss[1..])
  }

  lemma {:induction false} FlattenAppend<T>(a: seq<seq<T>>, b: seq<seq<T>>)
    ensures Flatten(a + b) == Flatten(a) + Flatten(b)
    decreases |a|
  {
    if a != [] {
      assert (a + b)[1..] == a[1..] + b;
      FlattenAppend(a[1..], b);
    } else {
      assert a + b == b;
    }
  }

  lemma {:induction false} FlattenSingles(xs: seq<string>)
    ensures Flatten(Singles(xs)) == xs
    decreases |xs|
  {
    if xs != [] {
      assert Singles(xs)[1..] == Singles(xs[1..]);
      FlattenSingles(xs[1..]);
    }
  }

  lemma {:induction false} JoinSnoc(xs: seq<string>, x: string, sep: string)
    requires xs != []
    ensures Join(xs + [x], sep) == Join(xs, sep) + sep + x
    decreases |xs|
  {
    if |xs| > 1 {
      assert (xs + [x])[1..] == xs[1..] + [x];
      JoinSnoc(xs[1..], x, sep);
    } else {
      assert (xs + [x])[1..] == [x];
    }
  }

  /** The accumulator of the packing loop: closed chunks and the paragraphs of the open one. */
  datatype Packing = Packing(done: seq<seq<string>>, current: seq<string>)

  const Gap := "\n\n"

  /**
   * The merge test. The source compares `len(current + paragraph)` with the limit and
   * so does not count the blank line it then puts between them (`separatorCounted`
   * false); counting it (`separatorCounted` true) is the corrected test.
   */
  predicate Fits(current: seq<string>, q: string, maxChars: nat, separatorCounted: bool) {
    |Join(current, Gap)| + |q| + (if separatorCounted && current != [] then |Gap| else 0) <= maxChars
  }

  /** Closes the open chunk, if there is one. */
  function Flush(st: Packing): seq<seq<string>> {
    st.done + (if st.current == [] then [] else [st.current])
  }

  /** One turn of the loop over paragraphs: strip, then place. */
  function Step(st: Packing, raw: string, maxChars: nat, separatorCounted: bool): Packing
    requires maxChars > 0
  {
    Place(st, Strip(raw), maxChars, separatorCounted)
  }

  /** Skip an empty paragraph, merge one that fits, cut one over the limit, or open a new chunk with it. */
  function Place(st: Packing, q: string, maxChars: nat, separatorCounted: bool): Packing
    requires maxChars > 0
  {
    if q == [] then st
    else if Fits(st.current, q, maxChars, separatorCounted) then Packing(st.done, st.current + [q])
    else if |q| > maxChars then Packing(Flush(st) + Singles(Slices(q, maxChars)), [])
    else Packing(Flush(st), [q])
  }

  /** The loop over the first `|paras|` paragraphs. */
  function Run(paras: seq<string>, maxChars: nat, separatorCounted: bool): Packing
    requires maxChars > 0
  {
    if paras == [] then Packing([], [])
    else Step(Run(paras[..|paras| - 1], maxChars, separatorCounted), paras[|paras| - 1], maxChars, separatorCounted)
  }

  /** The groups of paragraphs (or slices) that become the chunks, the open one included. */
  function Groups(paras: seq<string>, maxChars: nat, separatorCounted: bool): seq<seq<string>>
    requires maxChars > 0
  {
    Flush(Run(paras, maxChars, separatorCounted))
  }

  function JoinAll(groups: seq<seq<string>>): (r: seq<string>)
    ensures |r| == |groups| && forall k :: 0 <= k < |groups| ==> r[k] == Join(groups[k], Gap)
  {
    seq(|groups|, k requires 0 <= k < |groups| => Join(groups[k], Gap))
  }

  /** `_split_into_chunks(text, max_chars)` */
  function Split(text: string, maxChars: nat, separatorCounted: bool): seq<string>
    requires maxChars > 0
  {
    if |text| <= maxChars then [text]
    else JoinAll(Groups(Paragraphs(text), maxChars, separatorCounted))
  }

  /** What one stripped paragraph contributes: nothing, itself, or its slices. */
  function UnitOf(q: string, maxChars: nat): seq<string>
    requires maxChars > 0
  {
    if q == [] then [] else if |q| > maxChars then Slices(q, maxChars) else [q]
  }

  /**
   * Reference for the packing: the stripped non-empty paragraphs in order, each one
   * longer than the limit replaced by its slices.
   */
  function Units(paras: seq<string>, maxChars: nat): seq<string>
    requires maxChars > 0
  {
    if paras == [] then []
    else Units(paras[..|paras| - 1], maxChars) + UnitOf(Strip(paras[|paras| - 1]), maxChars)
  }

  lemma UnitsSnoc(paras: seq<string>, raw: string, maxChars: nat)
    requires maxChars > 0
    ensures Units(paras + [raw], maxChars) == Units(paras, maxChars) + UnitOf(Strip(raw), maxChars)
  {
    assert (paras + [raw])[..|paras|] == paras;
  }

  /** The largest chunk the merge test lets through. */
  function Bound(maxChars: nat, separatorCounted: bool): nat {
    if separatorCounted then maxChars else maxChars + |Gap|
  }

  /** A closed chunk: non-empty and within the bound. */
  ghost predicate GoodGroup(g: seq<string>, maxChars: nat, separatorCounted: bool) {
    g != [] && |Join(g, Gap)| <= Bound(maxChars, separatorCounted)
  }

  /** What the packing loop keeps true, given the units seen so far. */
  ghost predicate Packed(st: Packing, units: seq<string>, maxChars: nat, separatorCounted: bool) {
    && Flatten(st.done) + st.current == units
    && (forall g :: g in st.done ==> GoodGroup(g, maxChars, separatorCounted))
    && |Join(st.current, Gap)| <= Bound(maxChars, separatorCounted)
    && (forall x :: x in st.current ==> x != [])
  }

  ghost predicate PackingInvariant(st: Packing, paras: seq<string>, maxChars: nat, separatorCounted: bool)
    requires maxChars > 0
  {
    Packed(st, Units(paras, maxChars), maxChars, separatorCounted)
  }

  lemma FlushInvariant(st: Packing, paras: seq<string>, maxChars: nat, separatorCounted: bool)
    requires maxChars > 0
    requires PackingInvariant(st, paras, maxChars, separatorCounted)
    ensures Flatten(Flush(st)) == Units(paras, maxChars)
    ensures forall g :: g in Flush(st) ==> GoodGroup(g, maxChars, separatorCounted)
  {
    FlushPacked(st, Units(paras, maxChars), maxChars, separatorCounted);
  }

  lemma FlushPacked(st: Packing, units: seq<string>, maxChars: nat, separatorCounted: bool)
    requires Packed(st, units, maxChars, separatorCounted)
    ensures Flatten(Flush(st)) == units
    ensures forall g :: g in Flush(st) ==> GoodGroup(g, maxChars, separatorCounted)
  {
    if st.current != [] {
      FlattenAppend(st.done, [st.current]);
      assert Flatten([st.current]) == st.current + Flatten([]);
    } else {
      assert Flush(st) == st.done;
      assert Flatten(st.done) + [] == Flatten(st.done);
    }
  }

  lemma {:induction false} RunInvariant(paras: seq<string>, maxChars: nat, separatorCounted: bool)
    requires maxChars > 0
    ensures PackingInvariant(Run(paras, maxChars, separatorCounted), paras, maxChars, separatorCounted)
    decreases |paras|
  {
    if paras != [] {
      var prefix := paras[..|paras| - 1];
      var raw := paras[|paras| - 1];
      RunInvariant(prefix, maxChars, separatorCounted);
      StepPacked(Run(prefix, maxChars, separatorCounted), Units(prefix, maxChars), raw, maxChars, separatorCounted);
    }
  }

  lemma StepPacked(st: Packing, units: seq<string>, raw: string, maxChars: nat, separatorCounted: bool)
    requires maxChars > 0
    requires Packed(st, units, maxChars, separatorCounted)
    ensures Packed(Step(st, raw, maxChars, separatorCounted), units + UnitOf(Strip(raw), maxChars), maxChars, separatorCounted)
  {
    var q := Strip(raw);
    if q == [] {
      assert units + UnitOf(q, maxChars) == units;
    } else if Fits(st.current, q, maxChars, separatorCounted) {
      MergePacked(st, units, q, maxChars, separatorCounted);
    } else {
      FlushPacked(st, units, maxChars, separatorCounted);
      if |q| > maxChars {
        CutPacked(Flush(st), units, q, maxChars, separatorCounted);
      } else {
        OpenPacked(Flush(st), units, q, maxChars, separatorCounted);
      }
    }
  }

  lemma MergePacked(st: Packing, units: seq<string>, q: string, maxChars: nat, separatorCounted: bool)
    requires maxChars > 0 && q != []
    requires Packed(st, units, maxChars, separatorCounted)
    requires Fits(st.current, q, maxChars, separatorCounted)
    ensures Packed(Packing(st.done, st.current + [q]), units + UnitOf(q, maxChars), maxChars, separatorCounted)
  {
    var cur := st.current + [q];
    assert UnitOf(q, maxChars) == [q];
    if st.current != [] {
      JoinSnoc(st.current, q, Gap);
    } else {
      assert cur == [q];
    }
  }

  lemma CutPacked(flushed: seq<seq<string>>, units: seq<string>, q: string, maxChars: nat, separatorCounted: bool)
    requires maxChars > 0 && |q| > maxChars
    requires Flatten(flushed) == units
    requires forall g :: g in flushed ==> GoodGroup(g, maxChars, separatorCounted)
    ensures Packed(Packing(flushed + Singles(Slices(q, maxChars)), []), units + UnitOf(q, maxChars), maxChars, separatorCounted)
  {
    var sl := Slices(q, maxChars);
    var singles := Singles(sl);
    assert Flatten(flushed + singles) + [] == units + UnitOf(q, maxChars) by {
      FlattenAppend(flushed, singles);
      FlattenSingles(sl);
    }
    SinglesGood(q, maxChars, separatorCounted);
    assert Join([], Gap) == [];
  }

  lemma SinglesGood(q: string, maxChars: nat, separatorCounted: bool)
    requires maxChars > 0
    ensures forall g :: g in Singles(Slices(q, maxChars)) ==> GoodGroup(g, maxChars, separatorCounted)
  {
    var sl := Slices(q, maxChars);
    var singles := Singles(sl);
    forall g | g in singles
      ensures GoodGroup(g, maxChars, separatorCounted)
    {
      var k :| 0 <= k < |singles| && singles[k] == g;
      assert Join(g, Gap) == sl[k];
    }
  }

  lemma OpenPacked(flushed: seq<seq<string>>, units: seq<string>, q: string, maxChars: nat, separatorCounted: bool)
    requires maxChars > 0 && 0 < |q| <= maxChars
    requires Flatten(flushed) == units
    requires forall g :: g in flushed ==> GoodGroup(g, maxChars, separatorCounted)
    ensures Packed(Packing(flushed, [q]), units + UnitOf(q, maxChars), maxChars, separatorCounted)
  {
    assert Join([q], Gap) == q;
  }

  // ---------------------------------------------------------------------------
  // What the chunks are

  /** A text within the limit comes back as the single chunk `[text]`. */
  lemma ShortTextIsOneChunk(text: string, maxChars: nat, separatorCounted: bool)
    requires maxChars > 0 && |text| <= maxChars
    ensures Split(text, maxChars, separatorCounted) == [text]
  {
  }

  /**
   * A longer text: each chunk is a non-empty group joined by blank lines, and the
   * groups, read in order, are exactly the units (the stripped non-empty paragraphs,
   * over-long ones cut into slices).
   */
  lemma ChunksKeepParagraphs(text: string, maxChars: nat, separatorCounted: bool)
    requires maxChars > 0 && |text| > maxChars
    ensures var chunks := Split(text, maxChars, separatorCounted);
      var groups := Groups(Paragraphs(text), maxChars, separatorCounted);
      && |chunks| == |groups|
      && (forall k :: 0 <= k < |chunks| ==> groups[k] != [] && chunks[k] == Join(groups[k], Gap))
      && Flatten(groups) == Units(Paragraphs(text), maxChars)
  {
    var paras := Paragraphs(text);
    RunInvariant(paras, maxChars, separatorCounted);
    FlushInvariant(Run(paras, maxChars, separatorCounted), paras, maxChars, separatorCounted);
    var groups := Groups(paras, maxChars, separatorCounted);
    assert forall k :: 0 <= k < |groups| ==> groups[k] in groups;
  }

  /** Every chunk is at most `Bound` long: the limit plus 2 as written, the limit when the separator is counted. */
  lemma ChunksWithinBound(text: string, maxChars: nat, separatorCounted: bool)
    requires maxChars > 0
    ensures forall c :: c in Split(text, maxChars, separatorCounted) ==> |c| <= Bound(maxChars, separatorCounted)
  {
    if |text| > maxChars {
      var paras := Paragraphs(text);
      RunInvariant(paras, maxChars, separatorCounted);
      FlushInvariant(Run(paras, maxChars, separatorCounted), paras, maxChars, separatorCounted);
      var groups := Groups(paras, maxChars, separatorCounted);
      forall c | c in Split(text, maxChars, separatorCounted)
        ensures |c| <= Bound(maxChars, separatorCounted)
      {
        var k :| 0 <= k < |groups| && JoinAll(groups)[k] == c;
        assert groups[k] in groups;
      }
    }
  }

  /** With the separator counted, no chunk exceeds the limit. */
  lemma ChunksWithinLimit(text: string, maxChars: nat)
    requires maxChars > 0
    ensures forall c :: c in Split(text, maxChars, true) ==> |c| <= maxChars
  {
    ChunksWithinBound(text, maxChars, true);
  }

  /** As written, two paragraphs that together just fit give a chunk two characters over the limit. */
  lemma AsWrittenOverflow()
    ensures var text := "aa\n\nbbb";
      |text| == 5 + 2 && Split(text, 5, false) == [text]
  {
    var text := "aa\n\nbbb";
    assert |text| == 7;
    assert Split(text, 5, false) == JoinAll(Groups(Paragraphs(text), 5, false));
    OverflowParagraphs();
    assert Groups(Paragraphs(text), 5, false) == [["aa", "bbb"]] by {
      OverflowRun();
    }
    OverflowJoin();
  }

  lemma OverflowJoin()
    ensures JoinAll([["aa", "bbb"]]) == ["aa\n\nbbb"]
  {
    assert Join(["bbb"], Gap) == "bbb";
    assert Join(["aa", "bbb"], Gap) == "aa" + Gap + "bbb";
    assert "aa" + Gap + "bbb" == "aa\n\nbbb";
    assert JoinAll([["aa", "bbb"]])[0] == Join(["aa", "bbb"], Gap);
  }

  lemma OverflowParagraphs()
    ensures Paragraphs("aa\n\nbbb") == ["aa", "bbb"]
  {
    var text := "aa\n\nbbb";
    OverflowSpans();
    assert text[0..2] == "aa" && text[4..7] == "bbb";
  }

  lemma OverflowRun()
    ensures Run(["aa", "bbb"], 5, false) == Packing([], ["aa", "bbb"])
  {
    var paras := ["aa", "bbb"];
    assert paras[..1] == ["aa"];
    OverflowFirst();
    OverflowStrips();
    assert Run(paras, 5, false) == Place(Run(["aa"], 5, false), "bbb", 5, false);
    OverflowSecond();
  }

  lemma OverflowSecond()
    ensures Place(Packing([], ["aa"]), "bbb", 5, false) == Packing([], ["aa", "bbb"])
  {
    assert Join(["aa"], Gap) == "aa";
    assert Fits(["aa"], "bbb", 5, false);
    assert ["aa"] + ["bbb"] == ["aa", "bbb"];
  }

  lemma OverflowFirst()
    ensures Run(["aa"], 5, false) == Packing([], ["aa"])
  {
    assert ["aa"][..0] == [];
    assert Strip("aa") == "aa" by {
      OverflowStrips();
    }
  }

  lemma OverflowStrips()
    ensures Strip("aa") == "aa" && Strip("bbb") == "bbb"
  {
    StripUnpadded("aa");
    StripUnpadded("bbb");
  }

  lemma OverflowSpans()
    ensures Spans(BlankLine, "aa\n\nbbb") == [(0, 2), (4, 7)]
  {
    var text := "aa\n\nbbb";
    assert MatchEnd(BlankLine, text, 0).None? && MatchEnd(BlankLine, text, 1).None?;
    assert SpaceRunEnd(text, 3) == 4;
    assert MatchEnd(BlankLine, text, 2) == Some(4);
    assert MatchEnd(BlankLine, text, 4).None? && MatchEnd(BlankLine, text, 5).None?;
    assert MatchEnd(BlankLine, text, 6).None?;
    assert SpansFrom(BlankLine, text, 4, 7) == [(4, 7)];
    assert SpansFrom(BlankLine, text, 4, 4) == [(4, 7)];
    assert SpansFrom(BlankLine, text, 0, 2) == [(0, 2), (4, 7)];
  }

  /** A text of whitespace only that is over the limit gives no chunk at all. */
  lemma BlankTextGivesNoChunks(text: string, maxChars: nat, separatorCounted: bool)
    requires maxChars > 0 && |text| > maxChars && AllSpace(text)
    ensures Split(text, maxChars, separatorCounted) == []
  {
    var paras := Paragraphs(text);
    BlankPieces(BlankLine, text);
    BlankPieces(SentenceEnd, text);
    BlankRun(paras, maxChars, separatorCounted);
  }

  lemma {:induction false} BlankRun(paras: seq<string>, maxChars: nat, separatorCounted: bool)
    requires maxChars > 0
    requires forall k :: 0 <= k < |paras| ==> AllSpace(paras[k])
    ensures Run(paras, maxChars, separatorCounted) == Packing([], [])
    decreases |paras|
  {
    if paras != [] {
      BlankRun(paras[..|paras| - 1], maxChars, separatorCounted);
    }
  }

  /** A text with no blank line is one blank-line piece. */
  lemma NoBlankLineIsOnePiece(text: string)
    requires !HasMatch(BlankLine, text)
    ensures |ReSplit(BlankLine, text)| == 1
  {
    if |Spans(BlankLine, text)| > 1 {
      SecondPieceNeedsBlankLine(text);
    }
  }

  lemma SecondPieceNeedsBlankLine(text: string)
    requires |Spans(BlankLine, text)| > 1
    ensures HasMatch(BlankLine, text)
  {
    var sp := Spans(BlankLine, text);
    assert Linked(BlankLine, text, sp, 1);
    var a := sp[0].1;
    var e := MatchEnd(BlankLine, text, a).value;
    MatchShape(BlankLine, text, a);
    var m := text[a..e];
    assert text[a] == m[0] && text[e - 1] == m[|m| - 1];
    assert text[a..e - 1] == m[..|m| - 1];
    assert AllSpace(text[a..e - 1]);
  }

  /** When the text has no blank line, the sentence marks it was cut at are gone from every chunk. */
  lemma SentenceMarksDropped(text: string, maxChars: nat, separatorCounted: bool)
    requires maxChars > 0 && |text| > maxChars
    requires !HasMatch(BlankLine, text)
    ensures forall chunk :: chunk in Split(text, maxChars, separatorCounted) ==> Unmarked(chunk)
  {
    NoBlankLineIsOnePiece(text);
    var paras := Paragraphs(text);
    SentencePiecesUnmarked(text);
    assert forall k :: 0 <= k < |paras| ==> Unmarked(paras[k]);
    UnmarkedUnits(paras, maxChars);
    RunInvariant(paras, maxChars, separatorCounted);
    FlushInvariant(Run(paras, maxChars, separatorCounted), paras, maxChars, separatorCounted);
    var groups := Groups(paras, maxChars, separatorCounted);
    forall chunk | chunk in Split(text, maxChars, separatorCounted)
      ensures Unmarked(chunk)
    {
      var k :| 0 <= k < |groups| && JoinAll(groups)[k] == chunk;
      forall x | x in groups[k]
        ensures Unmarked(x)
      {
        FlattenMember(groups, k, x);
      }
      UnmarkedJoin(groups[k]);
    }
  }

  lemma {:induction false} FlattenMember<T>(xss: seq<seq<T>>, k: nat, x: T)
    requires k < |xss| && x in xss[k]
    ensures x in Flatten(xss)
    decreases k
  {
    if k > 0 {
      FlattenMember(xss[1..], k - 1, x);
    }
  }

  lemma {:induction false} UnmarkedUnits(paras: seq<string>, maxChars: nat)
    requires maxChars > 0
    requires forall k :: 0 <= k < |paras| ==> Unmarked(paras[k])
    ensures forall x :: x in Units(paras, maxChars) ==> Unmarked(x)
    decreases |paras|
  {
    if paras != [] {
      var prefix := paras[..|paras| - 1];
      UnmarkedUnits(prefix, maxChars);
      UnmarkedUnitOf(paras[|paras| - 1], maxChars);
    }
  }

  lemma UnmarkedUnitOf(raw: string, maxChars: nat)
    requires maxChars > 0 && Unmarked(raw)
    ensures forall x :: x in UnitOf(Strip(raw), maxChars) ==> Unmarked(x)
  {
    UnmarkedStrip(raw);
    var q := Strip(raw);
    if |q| > maxChars {
      UnmarkedSlices(q, maxChars);
    }
  }

  lemma UnmarkedStrip(raw: string)
    requires Unmarked(raw)
    ensures Unmarked(Strip(raw))
  {
    var q := Strip(raw);
    var a := StripStart(raw);
    assert q == raw[a..a + |q|];
    assert forall c :: c in q ==> c in raw;
  }

  lemma UnmarkedSlices(q: string, maxChars: nat)
    requires maxChars > 0 && Unmarked(q)
    ensures forall x :: x in Slices(q, maxChars) ==> Unmarked(x)
  {
    var sl := Slices(q, maxChars);
    forall x | x in sl
      ensures Unmarked(x)
    {
      var k :| 0 <= k < |sl| && sl[k] == x;
      assert forall c :: c in x ==> c in q;
    }
  }

  lemma {:induction false} UnmarkedJoin(g: seq<string>)
    requires forall x :: x in g ==> Unmarked(x)
    ensures Unmarked(Join(g, Gap))
    decreases |g|
  {
    if |g| > 1 {
      assert forall x :: x in g[1..] ==> x in g;
      UnmarkedJoin(g[1..]);
      assert g[0] in g;
      var j := Join(g, Gap);
      assert j == g[0] + Gap + Join(g[1..], Gap);
      forall c | c in j
        ensures !IsSentenceMark(c)
      {
        assert c in g[0] || c in Gap || c in Join(g[1..], Gap);
      }
    } else if |g| == 1 {
      assert g[0] in g;
    }
  }

  // ---------------------------------------------------------------------------
  // The loop itself

  lemma JoinNonEmpty(xs: seq<string>, sep: string)
    requires xs != [] && xs[0] != []
    ensures Join(xs, sep) != []
  {
  }

  lemma JoinAllAppend(a: seq<seq<string>>, b: seq<seq<string>>)
    ensures JoinAll(a + b) == JoinAll(a) + JoinAll(b)
  {
  }

  lemma JoinAllSingles(xs: seq<string>)
    ensures JoinAll(Singles(xs)) == xs
  {
  }

  /** The slices of `s[k..]` start with the one at `k`. */
  lemma SlicesAt(s: string, k: nat, n: nat)
    requires n > 0 && k < |s|
    ensures var end := if k + n < |s| then k + n else |s|;
      Slices(s[k..], n) == [s[k..end]] + Slices(s[end..], n)
  {
    var end := if k + n < |s| then k + n else |s|;
    if end < |s| {
      assert s[k..][..n] == s[k..end];
      assert s[k..][n..] == s[end..];
    } else {
      assert s[k..] == s[k..end];
      assert s[end..] == [];
    }
  }

  /** Closing the open chunk appends its text, if it has any paragraph. */
  lemma JoinAllFlush(st: Packing)
    ensures JoinAll(Flush(st)) == JoinAll(st.done) + (if st.current == [] then [] else [Join(st.current, Gap)])
  {
    JoinAllAppend(st.done, if st.current == [] then [] else [st.current]);
    if st.current != [] {
      assert JoinAll([st.current]) == [Join(st.current, Gap)];
    } else {
      assert JoinAll([]) == [];
    }
  }

  /** `paragraph[i:i + max_chars]` for i in `range(0, len(paragraph), max_chars)`, appended in order. */
  method AppendSlices(chunks: seq<string>, paragraph: string, maxChars: nat) returns (r: seq<string>)
    requires maxChars > 0
    ensures r == chunks + Slices(paragraph, maxChars)
  {
    r := chunks;
    var k := 0;
    assert paragraph[0..] == paragraph;
    while k < |paragraph|
      invariant 0 <= k <= |paragraph|
      invariant r + Slices(paragraph[k..], maxChars) == chunks + Slices(paragraph, maxChars)
    {
      var end := if k + maxChars < |paragraph| then k + maxChars else |paragraph|;
      SlicesAt(paragraph, k, maxChars);
      r := r + [paragraph[k..end]];
      k := end;
    }
    assert paragraph[k..] == [];
  }

  /** Every paragraph held open by the loop is non-empty. */
  lemma PlaceKeepsOpen(st: Packing, q: string, maxChars: nat, separatorCounted: bool)
    requires maxChars > 0
    requires forall x :: x in st.current ==> x != []
    ensures forall x :: x in Place(st, q, maxChars, separatorCounted).current ==> x != []
  {
  }

  /** The open chunk's text is empty exactly when it holds no paragraph. */
  lemma OpenText(current: seq<string>)
    requires forall x :: x in current ==> x != []
    ensures (Join(current, Gap) == []) == (current == [])
  {
    if current != [] {
      assert current[0] in current;
      JoinNonEmpty(current, Gap);
    }
  }

  /** Merging a paragraph into the open chunk appends it to the chunk's text, after a blank line if needed. */
  lemma MergeText(st: Packing, q: string, maxChars: nat, separatorCounted: bool)
    requires maxChars > 0 && q != [] && Fits(st.current, q, maxChars, separatorCounted)
    requires forall x :: x in st.current ==> x != []
    ensures Place(st, q, maxChars, separatorCounted).done == st.done
    ensures var cur := Join(st.current, Gap);
      Join(Place(st, q, maxChars, separatorCounted).current, Gap) == if cur == [] then q else cur + Gap + q
  {
    OpenText(st.current);
    if st.current != [] {
      JoinSnoc(st.current, q, Gap);
    } else {
      assert st.current + [q] == [q];
    }
  }

  /** A paragraph over the limit closes the open chunk and adds its slices as chunks of their own. */
  lemma CutText(st: Packing, q: string, maxChars: nat, separatorCounted: bool)
    requires maxChars > 0 && |q| > maxChars && !Fits(st.current, q, maxChars, separatorCounted)
    ensures Place(st, q, maxChars, separatorCounted).current == []
    ensures JoinAll(Place(st, q, maxChars, separatorCounted).done) == JoinAll(Flush(st)) + Slices(q, maxChars)
  {
    var sl := Slices(q, maxChars);
    JoinAllAppend(Flush(st), Singles(sl));
    JoinAllSingles(sl);
  }

  /** One turn of the loop on the source's own state, for a stripped paragraph. */
  method PackParagraph(chunks: seq<string>, current: string, paragraph: string, maxChars: nat, separatorCounted: bool,
                       ghost st: Packing)
    returns (chunks': seq<string>, current': string)
    requires maxChars > 0
    requires forall x :: x in st.current ==> x != []
    requires chunks == JoinAll(st.done) && current == Join(st.current, Gap)
    ensures var next := Place(st, paragraph, maxChars, separatorCounted);
      chunks' == JoinAll(next.done) && current' == Join(next.current, Gap)
  {
    OpenText(st.current);
    chunks', current' := chunks, current;
    if paragraph != "" {
      if |current| + |paragraph| + (if separatorCounted && current != "" then |Gap| else 0) <= maxChars {
        MergeText(st, paragraph, maxChars, separatorCounted);
        if current != "" {
          current' := current + Gap + paragraph;
        } else {
          current' := paragraph;
        }
      } else {
        if current != "" {
          chunks' := chunks' + [current];
        }
        assert chunks' == JoinAll(Flush(st)) by {
          JoinAllFlush(st);
        }
        if |paragraph| > maxChars {
          CutText(st, paragraph, maxChars, separatorCounted);
          chunks' := AppendSlices(chunks', paragraph, maxChars);
          current' := "";
        } else {
          assert Join([paragraph], Gap) == paragraph;
          current' := paragraph;
        }
      }
    }
  }

  /** The loop over a prefix one paragraph longer takes one more step. */
  lemma RunPrefix(paras: seq<string>, i: nat, maxChars: nat, separatorCounted: bool)
    requires maxChars > 0 && i < |paras|
    ensures Run(paras[..i + 1], maxChars, separatorCounted)
      == Place(Run(paras[..i], maxChars, separatorCounted), Strip(paras[i]), maxChars, separatorCounted)
  {
    assert paras[..i + 1][..i] == paras[..i];
  }

  /**
   * The source's loop: strip each paragraph, skip the empty ones, merge while the
   * merge test passes, otherwise close the open chunk and either cut the paragraph
   * into slices or open a new chunk with it.
   */
  method SplitIntoChunks(text: string, maxChars: nat, separatorCounted: bool) returns (chunks: seq<string>)
    requires maxChars > 0
    ensures chunks == Split(text, maxChars, separatorCounted)
  {
    if |text| <= maxChars {
      return [text];
    }
    var paragraphs := Paragraphs(text);
    chunks := [];
    var current := "";
    ghost var st := Packing([], []);
    var i := 0;
    while i < |paragraphs|
      invariant 0 <= i <= |paragraphs|
      invariant st == Run(paragraphs[..i], maxChars, separatorCounted)
      invariant forall x :: x in st.current ==> x != []
      invariant chunks == JoinAll(st.done) && current == Join(st.current, Gap)
    {
      var paragraph := Strip(paragraphs[i]);
      chunks, current := PackParagraph(chunks, current, paragraph, maxChars, separatorCounted, st);
      PlaceKeepsOpen(st, paragraph, maxChars, separatorCounted);
      RunPrefix(paragraphs, i, maxChars, separatorCounted);
      st := Place(st, paragraph, maxChars, separatorCounted);
      i := i + 1;
    }
    assert st == Run(paragraphs, maxChars, separatorCounted) by {
      assert paragraphs[..i] == paragraphs;
    }
    OpenText(st.current);
    if current != "" {
      chunks := chunks + [current];
    }
    JoinAllFlush(st);
  }
}
