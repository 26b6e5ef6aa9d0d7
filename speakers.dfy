/**
 * Speaker tags: `SPEAKER_TAG_RE` (`\[(\w[\w-]*)\](.*?)\[/\1\]` with
 * `re.DOTALL`), the tag-stripping substitution, the split of a chapter into
 * speaker runs and `_analyze_text`.
 *
 * The pattern is followed by hand: a name is a word character and then a
 * greedy run of word characters and hyphens, which can only end at the
 * closing bracket; the lazy body ends at the first closer naming the same
 * speaker, wherever the line breaks are.
 */
module Speakers {
  import opened Wrappers
  import opened Text

  /** `[\w-]`: a character of a speaker name after the first. */
  predicate IsNameChar(c: char) {
    IsWordChar(c) || c == '-'
  }

  /** A string the name group `\w[\w-]*` matches in full. */
  predicate IsName(n: string) {
    n != [] && IsWordChar(n[0]) && forall k :: 0 <= k < |n| ==> IsNameChar(n[k])
  }

  function Opener(name: string): string {
    "[" + name + "]"
  }

  function Closer(name: string): string {
    "[/" + name + "]"
  }

  /** End of the greedy run of name characters starting at `i`. */
  function NameEnd(t: string, i: nat): (e: nat)
    requires i <= |t|
    ensures i <= e <= |t|
    ensures forall k :: i <= k < e ==> IsNameChar(t[k])
    ensures e == |t| || !IsNameChar(t[e])
    decreases |t| - i
  {
    if i < |t| && IsNameChar(t[i]) then NameEnd(t, i + 1) else i
  }

  /** The opening tag at `s`: its name and the start of the body. */
  function OpenerAt(t: string, s: nat): (r: Option<(string, nat)>)
    requires s <= |t|
    ensures r.Some? ==> var (name, b) := r.value;
      IsName(name) && s + |name| + 2 == b <= |t| && t[s..b] == Opener(name)
  {
    if s + 1 < |t| && t[s] == '[' && IsWordChar(t[s + 1]) then
      var e := NameEnd(t, s + 2);
      if e < |t| && t[e] == ']' then Some((t[s + 1..e], e + 1)) else None
    else None
  }

  predicate ClosesAt(t: string, k: nat, name: string) {
    k + |name| + 3 <= |t| && t[k..k + |name| + 3] == Closer(name)
  }

  lemma CloserShape(t: string, k: nat, name: string)
    requires ClosesAt(t, k, name)
    ensures t[k] == '[' && t[k + 1] == '/' && t[k + |name| + 2] == ']'
    ensures forall j :: 0 <= j < |name| ==> t[k + 2 + j] == name[j]
  {
    var c := t[k..k + |name| + 3];
    assert c[0] == t[k] && c[1] == t[k + 1] && c[|name| + 2] == t[k + |name| + 2];
    forall j | 0 <= j < |name| ensures t[k + 2 + j] == name[j] {
      assert c[2 + j] == t[k + 2 + j];
      assert c[2 + j] == Closer(name)[2 + j];
    }
  }

  /** The first closer of `name` at or after `from`: where the lazy `(.*?)` stops. */
  function CloserFrom(t: string, from: nat, name: string): (r: Option<nat>)
    requires from <= |t|
    ensures r.Some? ==> from <= r.value && ClosesAt(t, r.value, name)
    ensures r.Some? ==> forall k :: from <= k < r.value ==> !ClosesAt(t, k, name)
    ensures r.None? ==> forall k :: from <= k <= |t| ==> !ClosesAt(t, k, name)
    decreases |t| - from
  {
    if ClosesAt(t, from, name) then Some(from)
    else if from == |t| then None
    else CloserFrom(t, from + 1, name)
  }

  /** One match of the pattern: group 1 is `name`, group 2 is `t[bodyStart..bodyEnd]`. */
  datatype Tagged = Tagged(start: nat, name: string, bodyStart: nat, bodyEnd: nat, end: nat)

  /** The match starting at `s`, if the pattern matches there. */
  function MatchAt(t: string, s: nat): (r: Option<Tagged>)
    requires s <= |t|
    ensures r.Some? ==> var m := r.value;
      m.start == s && IsName(m.name) && s < m.bodyStart <= m.bodyEnd < m.end <= |t|
      && t[s..m.bodyStart] == Opener(m.name) && t[m.bodyEnd..m.end] == Closer(m.name)
      && forall k :: m.bodyStart <= k < m.bodyEnd ==> !ClosesAt(t, k, m.name)
  {
    match OpenerAt(t, s)
    case None => None
    case Some((name, b)) =>
      match CloserFrom(t, b, name)
      case None => None
      case Some(c) => Some(Tagged(s, name, b, c, c + |name| + 3))
  }

  /** `re.search` from `p`: the leftmost match at or after `p`. */
  function FindFrom(t: string, p: nat): (r: Option<Tagged>)
    requires p <= |t|
    ensures r.Some? ==> p <= r.value.start <= |t| && MatchAt(t, r.value.start) == r
    ensures r.Some? ==> forall s :: p <= s < r.value.start ==> MatchAt(t, s).None?
    ensures r.None? ==> forall s :: p <= s <= |t| ==> MatchAt(t, s).None?
    decreases |t| - p
  {
    if MatchAt(t, p).Some? then MatchAt(t, p)
    else if p == |t| then None
    else FindFrom(t, p + 1)
  }

  /** The matches lie within `t` at or after `p` and follow each other without overlapping. */
  predicate Ordered(t: string, p: nat, ms: seq<Tagged>) {
    (forall k :: 0 <= k < |ms| ==> p <= ms[k].start < ms[k].bodyStart <= ms[k].bodyEnd < ms[k].end <= |t|)
    && (forall j, k :: 0 <= j < k < |ms| ==> ms[j].end <= ms[k].start)
  }

  /** `finditer` from `p`: every match is non-empty, so the scan resumes at its end. */
  function FindAll(t: string, p: nat): (r: seq<Tagged>)
    requires p <= |t|
    ensures Ordered(t, p, r)
    ensures forall i :: 0 <= i < |r| ==> r[i].start <= |t| && MatchAt(t, r[i].start) == Some(r[i])
    decreases |t| - p
  {
    match FindFrom(t, p)
    case None => []
    case Some(m) =>
      var rest := FindAll(t, m.end);
      PrependOrdered(t, p, m, rest);
      assert forall k :: 0 < k < |[m] + rest| ==> ([m] + rest)[k] == rest[k - 1];
      [m] + rest
  }

  lemma PrependOrdered(t: string, p: nat, m: Tagged, rest: seq<Tagged>)
    requires p <= m.start < m.bodyStart <= m.bodyEnd < m.end <= |t|
    requires Ordered(t, m.end, rest)
    ensures Ordered(t, p, [m] + rest)
  {
    var r := [m] + rest;
    forall j, k | 0 <= j < k < |r| ensures r[j].end <= r[k].start {
      assert r[k] == rest[k - 1];
      if j > 0 {
        assert r[j] == rest[j - 1];
      }
    }
  }

  /** `SPEAKER_TAG_RE.finditer(t)`. */
  function Matches(t: string): seq<Tagged> {
    FindAll(t, 0)
  }

  // ---------------------------------------------------------------------
  // _analyze_text
  // ---------------------------------------------------------------------

  /** The first groups of the matches, in order (`m[0] for m in findall`). */
  function Names(ms: seq<Tagged>): (r: seq<string>)
    ensures |r| == |ms| && forall i :: 0 <= i < |ms| ==> r[i] == ms[i].name
  {
    if ms == [] then [] else [ms[0].name] + Names(ms[1..])
  }

  /** Index of the first occurrence of `x`. */
  function First(xs: seq<string>, x: string): (i: nat)
    requires x in xs
    ensures i < |xs| && xs[i] == x && forall k :: 0 <= k < i ==> xs[k] != x
  {
    if xs[0] == x then 0 else 1 + First(xs[1..], x)
  }

  /** `list(dict.fromkeys(xs))`: each element once, at its first appearance. */
  function Dedup(xs: seq<string>): (r: seq<string>)
    ensures forall x :: x in r <==> x in xs
    ensures forall i, j :: 0 <= i < j < |r| ==> r[i] != r[j]
    decreases |xs|
  {
    if xs == [] then []
    else
      var d := Dedup(xs[..|xs| - 1]);
      assert forall x :: x in xs <==> x in xs[..|xs| - 1] || x == xs[|xs| - 1] by {
        forall x | x in xs ensures x in xs[..|xs| - 1] || x == xs[|xs| - 1] {
          var k :| 0 <= k < |xs| && xs[k] == x;
          if k < |xs| - 1 {
            assert xs[..|xs| - 1][k] == x;
          }
        }
      }
      if xs[|xs| - 1] in d then d else d + [xs[|xs| - 1]]
  }

  lemma {:induction false} FirstInPrefix(xs: seq<string>, n: nat, x: string)
    requires n <= |xs| && x in xs[..n]
    ensures x in xs && First(xs, x) == First(xs[..n], x)
  {
    var k :| 0 <= k < n && xs[..n][k] == x;
    assert xs[k] == x;
    var f := First(xs, x);
    var g := First(xs[..n], x);
    assert xs[g] == x;
    assert f <= g;
    assert xs[..n][f] == x;
  }

  /** The speaker list keeps the order in which the names first appear. */
  lemma {:induction false} DedupKeepsFirstAppearance(xs: seq<string>)
    ensures forall i, j :: 0 <= i < j < |Dedup(xs)| ==> First(xs, Dedup(xs)[i]) < First(xs, Dedup(xs)[j])
    decreases |xs|
  {
    if xs != [] {
      var n := |xs| - 1;
      var init := xs[..n];
      var d := Dedup(init);
      DedupKeepsFirstAppearance(init);
      forall x | x in d
        ensures First(xs, x) == First(init, x)
      {
        FirstInPrefix(xs, n, x);
      }
      if xs[n] !in d {
        assert xs[n] !in init;
        assert First(xs, xs[n]) == n by {
          forall k | 0 <= k < n ensures xs[k] != xs[n] {
            assert init[k] == xs[k];
          }
        }
        var r := Dedup(xs);
        assert r == d + [xs[n]];
        forall i, j | 0 <= i < j < |r|
          ensures First(xs, r[i]) < First(xs, r[j])
        {
          assert r[i] == d[i];
          if j < |d| {
            assert r[j] == d[j];
          } else {
            assert r[i] in init;
            assert First(init, r[i]) < |init|;
          }
        }
      }
    }
  }

  /** `\[\/?\w[\w-]*\]` at the front of `t`: the length of the tag, if one is there. */
  function TagLength(t: string): (r: Option<nat>)
    ensures r.Some? ==> 3 <= r.value <= |t|
  {
    if t == [] || t[0] != '[' then None
    else
      var j := if 1 < |t| && t[1] == '/' then 2 else 1;
      if j < |t| && IsWordChar(t[j]) then
        var e := NameEnd(t, j + 1);
        if e < |t| && t[e] == ']' then Some(e + 1) else None
      else None
  }

  /** `re.sub(r"\[\/?\w[\w-]*\]", "", t)`: tags removed left to right; what a removal joins is not rescanned. */
  function StripTags(t: string): (r: string)
    ensures |r| <= |t|
    decreases |t|
  {
    if t == [] then []
    else match TagLength(t)
      case Some(n) => StripTags(t[n..])
      case None => [t[0]] + StripTags(t[1..])
  }

  /** An opening tag is removed from the front of any text. */
  lemma OpenerStripped(name: string, rest: string)
    requires IsName(name)
    ensures StripTags(Opener(name) + rest) == StripTags(rest)
  {
    var t := Opener(name) + rest;
    assert t[1..|name| + 1] == name;
    assert NameEnd(t, 2) == |name| + 1 by {
      NameRunEnds(t, 2, |name| + 1);
    }
    assert t[|name| + 2..] == rest;
  }

  /** A closing tag is removed from the front of any text. */
  lemma CloserStripped(name: string, rest: string)
    requires IsName(name)
    ensures StripTags(Closer(name) + rest) == StripTags(rest)
  {
    var t := Closer(name) + rest;
    assert t[2..|name| + 2] == name;
    assert NameEnd(t, 3) == |name| + 2 by {
      NameRunEnds(t, 3, |name| + 2);
    }
    assert t[|name| + 3..] == rest;
  }

  lemma {:induction false} NameRunEnds(t: string, i: nat, e: nat)
    requires i <= e < |t| && t[e] == ']'
    requires forall k :: i <= k < e ==> IsNameChar(t[k])
    ensures NameEnd(t, i) == e
    decreases e - i
  {
    if i < e {
      NameRunEnds(t, i + 1, e);
    }
  }

  /** Text without `[` has no tag to strip. */
  lemma {:induction false} NoBracketUnstripped(t: string)
    requires '[' !in t
    ensures StripTags(t) == t
    decreases |t|
  {
    if t != [] {
      assert t[1..] == t[1..] && '[' !in t[1..] by {
        forall k | 0 <= k < |t[1..]| ensures t[1..][k] != '[' {
          assert t[1..][k] == t[k + 1];
        }
      }
      NoBracketUnstripped(t[1..]);
    }
  }

  /** What `_analyze_text` reports, without the float estimate and the heading count. */
  datatype Analysis = Analysis(speakers: seq<string>, speakerCount: nat, totalChunks: nat, wordCount: nat)

  /** The text `_analyze_text` counts: tags stripped, whitespace trimmed. */
  function Clean(t: string): string {
    Strip(StripTags(t))
  }

  lemma CleanIsStripped(t: string)
    ensures Strip(Clean(t)) == Clean(t)
  {
    StripIdempotent(StripTags(t));
  }

  /** `len(clean.split()) if clean else 0`: zero exactly for an empty clean text. */
  function WordCount(clean: string): (n: nat)
    requires clean == Strip(clean)
    ensures n == |Split(clean)|
    ensures n == 0 <==> clean == []
  {
    SplitEmptyIffBlank(clean);
    StripEmptyIffBlank(clean);
    assert clean != [] ==> !IsSpace(clean[0]);
    if clean != [] then |Split(clean)| else 0
  }

  /** `q` chunks of size `d` hold `n` characters, and no fewer would (but there is at least one). */
  predicate IsChunkCount(q: nat, n: nat, d: nat) {
    q >= 1 && n <= q * d && (q == 1 || (q - 1) * d < n)
  }

  /** `max(1, (n + d - 1) // d)`: the number of chunks of size `d` that hold `n` characters, at least one. */
  function ChunkEstimate(n: nat, d: nat): (q: nat)
    requires d > 0
    ensures IsChunkCount(q, n, d)
  {
    CeilingDivision(n, d);
    var c := (n + d - 1) / d;
    if c > 1 then c else 1
  }

  /** `_analyze_text(text, chunk_size=chunkSize)`; a zero chunk size would divide by zero. */
  function Analyze(t: string, chunkSize: nat): (a: Analysis)
    requires chunkSize > 0
    ensures a.speakers == Dedup(Names(Matches(t)))
    ensures a.speakerCount >= 1 && (a.speakerCount == |a.speakers| || (a.speakerCount == 1 && a.speakers == []))
    ensures a.wordCount == |Split(Clean(t))|
    ensures a.wordCount == 0 <==> Clean(t) == []
    ensures IsChunkCount(a.totalChunks, |Clean(t)|, chunkSize)
  {
    CleanIsStripped(t);
    Summarise(Dedup(Names(Matches(t))), Clean(t), chunkSize)
  }

  /** The counts `_analyze_text` reports for a speaker list and a clean text. */
  function Summarise(speakers: seq<string>, clean: string, chunkSize: nat): (a: Analysis)
    requires chunkSize > 0 && clean == Strip(clean)
    ensures a.speakers == speakers
    ensures a.speakerCount >= 1 && (a.speakerCount == |speakers| || (a.speakerCount == 1 && speakers == []))
    ensures a.wordCount == |Split(clean)|
    ensures a.wordCount == 0 <==> clean == []
    ensures IsChunkCount(a.totalChunks, |clean|, chunkSize)
  {
    Analysis(speakers, if |speakers| > 1 then |speakers| else 1, ChunkEstimate(|clean|, chunkSize), WordCount(clean))
  }

  /** `(n + d - 1) // d` is the ceiling of n / d. */
  lemma CeilingDivision(n: nat, d: nat)
    requires d > 0
    ensures var q := (n + d - 1) / d; n <= q * d && (q == 0 || (q - 1) * d < n)
  {
    var q := (n + d - 1) / d;
    var r := (n + d - 1) % d;
    assert q * d + r == n + d - 1;
    if q > 0 {
      assert (q - 1) * d == q * d - d;
    }
  }

  // ---------------------------------------------------------------------
  // Speaker runs of a chapter
  // ---------------------------------------------------------------------

  /** A run of text read by one voice. */
  datatype Segment = Segment(speaker: string, text: string)

  /** The untagged text between `pos` and a match at `start`, as a `default` run if it is not blank. */
  function Gap(t: string, pos: nat, start: nat): (r: seq<Segment>)
    requires pos <= start <= |t|
    ensures |r| <= 1 && forall i :: 0 <= i < |r| ==> r[i].speaker == "default" && r[i].text != []
  {
    if start > pos && Strip(t[pos..start]) != [] then [Segment("default", Strip(t[pos..start]))] else []
  }

  /** A match as a run: its speaker and its stripped body (which may be empty). */
  function TaggedRun(t: string, m: Tagged): Segment
    requires m.bodyStart <= m.bodyEnd <= |t|
  {
    Segment(m.name, Strip(t[m.bodyStart..m.bodyEnd]))
  }

  /** Where the scan stands after the first `i` matches. */
  function PosAfter(ms: seq<Tagged>, i: nat): nat
    requires i <= |ms|
  {
    if i == 0 then 0 else ms[i - 1].end
  }

  /** The runs produced by the first `i` matches and the text before each of them. */
  function RunsUpTo(t: string, ms: seq<Tagged>, i: nat): (r: seq<Segment>)
    requires Ordered(t, 0, ms) && i <= |ms|
    ensures i <= |r| <= 2 * i
  {
    if i == 0 then []
    else RunsUpTo(t, ms, i - 1) + Gap(t, PosAfter(ms, i - 1), ms[i - 1].start) + [TaggedRun(t, ms[i - 1])]
  }

  /** One more match adds the text before it and the match itself. */
  lemma RunsUpToStep(t: string, ms: seq<Tagged>, i: nat)
    requires Ordered(t, 0, ms) && i < |ms|
    ensures PosAfter(ms, i) <= ms[i].start
    ensures RunsUpTo(t, ms, i + 1) == RunsUpTo(t, ms, i) + Gap(t, PosAfter(ms, i), ms[i].start) + [TaggedRun(t, ms[i])]
  {
  }

  /** The text after the last match, as a `default` run if it is not blank. */
  function Remaining(t: string, pos: nat): (r: seq<Segment>)
    requires pos <= |t|
  {
    if Strip(t[pos..]) != [] then [Segment("default", Strip(t[pos..]))] else []
  }

  /** All runs of a chapter, given its matches. */
  function Runs(t: string, ms: seq<Tagged>): seq<Segment>
    requires Ordered(t, 0, ms)
  {
    RunsUpTo(t, ms, |ms|) + Remaining(t, PosAfter(ms, |ms|))
  }

  /** The runs of a chapter; no run at all gives one `default` run of the tag-stripped text. */
  function Segments(t: string): seq<Segment> {
    var runs := Runs(t, Matches(t));
    if runs == [] then [Segment("default", Strip(StripTags(t)))] else runs
  }

  /**
   * The segment loop of `_process_chapter` (and of `_process_job`): text
   * before a match, the match, and what is left after the last one; no run
   * at all gives the fallback run.
   */
  method ParseSegments(t: string) returns (segments: seq<Segment>)
    ensures segments == Segments(t)
  {
    segments := CollectRuns(t, Matches(t));
    if segments == [] {
      segments := [Segment("default", Strip(StripTags(t)))];
    }
  }

  /** The loop over the matches of `finditer`, then the text after the last one; every run it yields is filled or named. */
  method CollectRuns(t: string, ms: seq<Tagged>) returns (segments: seq<Segment>)
    requires Ordered(t, 0, ms)
    ensures segments == Runs(t, ms)
    ensures forall k :: 0 <= k < |segments| ==> FilledOrNamed(segments[k], Names(ms))
  {
    var pos;
    segments, pos := CollectTagged(t, ms);
    var remaining := TextAfter(t, pos);
    AppendFilled(segments, remaining, Names(ms));
    segments := segments + remaining;
  }

  /** The `finditer` loop itself: the text before each match, then the match. */
  method CollectTagged(t: string, ms: seq<Tagged>) returns (segments: seq<Segment>, pos: nat)
    requires Ordered(t, 0, ms)
    ensures segments == RunsUpTo(t, ms, |ms|) && pos == PosAfter(ms, |ms|) <= |t|
    ensures forall k :: 0 <= k < |segments| ==> FilledOrNamed(segments[k], Names(ms))
  {
    segments := [];
    pos := 0;
    var i := 0;
    while i < |ms|
      invariant 0 <= i <= |ms| && pos == PosAfter(ms, i) <= |t|
      invariant segments == RunsUpTo(t, ms, i)
      invariant forall k :: 0 <= k < |segments| ==> FilledOrNamed(segments[k], Names(ms))
    {
      var m := ms[i];
      RunsUpToStep(t, ms, i);
      var before := TextBefore(t, pos, m.start);
      var run := Segment(m.name, Strip(t[m.bodyStart..m.bodyEnd]));
      AppendTaggedOrFilled(segments, before, run, Names(ms), i, segments + before + [run]);
      segments := segments + before + [run];
      pos := m.end;
      i := i + 1;
    }
  }

  /** The stripped text between the scan position and the next match, kept only when it is not blank. */
  method TextBefore(t: string, pos: nat, start: nat) returns (r: seq<Segment>)
    requires pos <= start <= |t|
    ensures r == Gap(t, pos, start)
  {
    r := [];
    if start > pos {
      var before := Strip(t[pos..start]);
      if before != [] {
        r := [Segment("default", before)];
      }
    }
  }

  /** The stripped text after the last match, kept only when it is not blank. */
  method TextAfter(t: string, pos: nat) returns (r: seq<Segment>)
    requires pos <= |t|
    ensures r == Remaining(t, pos)
  {
    r := [];
    var remaining := Strip(t[pos..]);
    if remaining != [] {
      r := [Segment("default", remaining)];
    }
  }

  /** A run is a non-empty `default` run or carries one of the given names. */
  predicate FilledOrNamed(s: Segment, names: seq<string>) {
    (s.speaker == "default" && s.text != []) || s.speaker in names
  }

  /** Appending a gap of filled `default` runs and one tagged run keeps every run filled or tagged. */
  lemma AppendTaggedOrFilled(prev: seq<Segment>, gap: seq<Segment>, run: Segment, names: seq<string>, k: nat,
                             whole: seq<Segment>)
    requires forall j :: 0 <= j < |prev| ==> FilledOrNamed(prev[j], names)
    requires forall j :: 0 <= j < |gap| ==> gap[j].speaker == "default" && gap[j].text != []
    requires k < |names| && run.speaker == names[k]
    requires whole == prev + gap + [run]
    ensures forall j :: 0 <= j < |whole| ==> FilledOrNamed(whole[j], names)
  {
    forall j | 0 <= j < |whole|
      ensures FilledOrNamed(whole[j], names)
    {
      if j < |prev| {
        assert whole[j] == prev[j];
      } else if j < |prev| + |gap| {
        assert whole[j] == gap[j - |prev|];
      } else {
        assert whole[j] == run;
      }
    }
  }

  /** Appending the remainder, a filled `default` run or nothing, keeps every run filled or tagged. */
  lemma AppendFilled(prev: seq<Segment>, rest: seq<Segment>, names: seq<string>)
    requires forall j :: 0 <= j < |prev| ==> FilledOrNamed(prev[j], names)
    requires forall j :: 0 <= j < |rest| ==> rest[j].speaker == "default" && rest[j].text != []
    ensures forall j :: 0 <= j < |prev + rest| ==> FilledOrNamed((prev + rest)[j], names)
  {
  }

  /** A chapter without any tag pair is one `default` run of its stripped text, even when that is empty. */
  lemma UntaggedChapterIsOneRun(t: string)
    requires Matches(t) == []
    ensures Strip(t) != [] ==> Segments(t) == [Segment("default", Strip(t))]
    ensures Strip(t) == [] ==> Segments(t) == [Segment("default", [])]
  {
    assert t[0..] == t;
    if Strip(t) == [] {
      StripEmptyIffBlank(t);
      assert '[' !in t by {
        forall k | 0 <= k < |t| ensures t[k] != '[' {
          assert IsSpace(t[k]);
        }
      }
      NoBracketUnstripped(t);
    }
  }

  /** The fallback run is reached only for a blank chapter, and then it is empty. */
  lemma FallbackOnlyForBlank(t: string)
    requires Runs(t, Matches(t)) == []
    ensures Strip(t) == [] && Segments(t) == [Segment("default", [])]
  {
    assert Matches(t) == [];
    assert t[0..] == t;
    UntaggedChapterIsOneRun(t);
  }

  /** The closer must repeat the opener's name: `[a]x[/b]` is no match. */
  lemma ClosingNameMustAgree()
    ensures Matches("[a]x[/b]") == []
  {
    var t := "[a]x[/b]";
    assert OpenerAt(t, 0) == Some(("a", 3)) by {
      assert NameEnd(t, 2) == 2;
      assert t[1..2] == "a";
    }
    assert MatchAt(t, 0).None? by {
      assert CloserFrom(t, 3, "a").None? by {
        forall k | 3 <= k <= |t| ensures !ClosesAt(t, k, "a") {
          if ClosesAt(t, k, "a") {
            CloserShape(t, k, "a");
            assert false;
          }
        }
      }
    }
    forall s | 1 <= s <= |t| ensures MatchAt(t, s).None? {
      if s + 1 < |t| && t[s] == '[' {
        assert s == 4;
      }
    }
  }

  /** The body may span lines: `[a]x\ny[/a]` is one match whose body is `x\ny`. */
  lemma BodySpansLines()
    ensures Matches("[a]x\ny[/a]") == [Tagged(0, "a", 3, 6, 10)]
  {
    var t := "[a]x\ny[/a]";
    assert NameEnd(t, 2) == 2;
    assert t[1..2] == "a";
    assert OpenerAt(t, 0) == Some(("a", 3));
    assert ClosesAt(t, 6, "a") by {
      assert t[6..10] == Closer("a");
    }
    forall k | 3 <= k < 6 ensures !ClosesAt(t, k, "a") {
      if ClosesAt(t, k, "a") {
        CloserShape(t, k, "a");
      }
    }
    assert CloserFrom(t, 3, "a") == Some(6);
    assert MatchAt(t, 0) == Some(Tagged(0, "a", 3, 6, 10));
    assert FindAll(t, 10) == [];
  }
}
