/**
 * The pronunciation dictionary applied to a text (database.py,
 * `db_apply_dictionary`).
 *
 * For each entry the source builds the pattern
 *   `(^|[\s\-])` + escaped key + `(?=$|[\s!?.,;:\-])`
 * with `re.IGNORECASE | re.MULTILINE` and replaces every match by the
 * captured left boundary followed by the replacement. This module writes
 * that one pattern out by hand (`MatchAt`), together with the scan `re.sub`
 * performs over a text (`SubstituteFrom`), including its rule for empty
 * matches, which an imported empty key can produce.
 */
module Normaliser {
  import opened Wrappers
  import opened Text

  /** `^` under `re.MULTILINE`: the start of the text or of a line. */
  predicate LineStart(t: string, p: nat)
    requires p <= |t|
  {
    p == 0 || t[p - 1] == '\n'
  }

  /** The class `[\s\-]` of the left boundary group. */
  predicate LeftSeparator(c: char) {
    IsSpace(c) || c == '-'
  }

  /** The look-ahead `(?=$|[\s!?.,;:\-])` at position `e`; `$` before a newline is covered by `\s`. */
  predicate RightBoundary(t: string, e: nat)
    requires e <= |t|
  {
    e == |t| || IsSpace(t[e]) || t[e] in "!?.,;:-"
  }

  /** The escaped key matches at `p`, letter by letter, ignoring case. */
  predicate WordAt(t: string, p: nat, w: string) {
    p + |w| <= |t| && forall k :: 0 <= k < |w| ==> SameLetter(t[p + k], w[k])
  }

  /** A match of the pattern: it starts at `start`, its group 1 has `kept` characters, and it ends at `end`. */
  datatype Match = Match(start: nat, kept: nat, end: nat)

  /**
   * The pattern tried at position `p`: first the empty alternative `^`,
   * then one separator character. With `mustAdvance` an empty match at `p`
   * is refused, as `re.sub` refuses one right after an empty match.
   */
  function MatchAt(t: string, p: nat, w: string, mustAdvance: bool): (r: Option<Match>)
    requires p <= |t|
    ensures r.Some? ==> r.value.start == p && r.value.kept <= 1
    ensures r.Some? ==> r.value.end == p + r.value.kept + |w| <= |t|
    ensures r.Some? ==> WordAt(t, p + r.value.kept, w) && RightBoundary(t, r.value.end)
    ensures r.Some? && r.value.kept == 0 ==> LineStart(t, p)
    ensures r.Some? && r.value.kept == 1 ==> LeftSeparator(t[p])
    ensures r.Some? && mustAdvance ==> r.value.end > p
  {
    if LineStart(t, p) && WordAt(t, p, w) && RightBoundary(t, p + |w|) && !(mustAdvance && w == []) then
      Some(Match(p, 0, p + |w|))
    else if p < |t| && LeftSeparator(t[p]) && WordAt(t, p + 1, w) && RightBoundary(t, p + 1 + |w|) then
      Some(Match(p, 1, p + 1 + |w|))
    else
      None
  }

  /** The leftmost match starting at or after `from`, as `re` searches. */
  function Search(t: string, from: nat, w: string, mustAdvance: bool): (r: Option<Match>)
    requires from <= |t|
    ensures r.Some? ==> from <= r.value.start <= r.value.end <= |t|
    ensures r.Some? && r.value.start == from ==> r == MatchAt(t, from, w, mustAdvance)
    ensures r.Some? && r.value.start > from ==> r == MatchAt(t, r.value.start, w, false)
    ensures r.Some? && r.value.start > from ==> MatchAt(t, from, w, mustAdvance).None?
    ensures r.Some? ==> forall p :: from < p < r.value.start ==> MatchAt(t, p, w, false).None?
    ensures r.None? ==> MatchAt(t, from, w, mustAdvance).None?
    ensures r.None? ==> forall p :: from < p <= |t| ==> MatchAt(t, p, w, false).None?
    decreases |t| - from
  {
    match MatchAt(t, from, w, mustAdvance)
    case Some(m) => Some(m)
    case None => if from == |t| then None else Search(t, from + 1, w, false)
  }

  /**
   * `re.sub` from position `from`: the text up to each match is copied, the
   * match becomes its group 1 followed by `repl`, and scanning resumes at
   * the match's end (refusing an empty match there if this one was empty).
   */
  function SubstituteFrom(t: string, from: nat, w: string, repl: string, mustAdvance: bool): string
    requires from <= |t|
    decreases |t| - from, if mustAdvance then 0 else 1
  {
    match Search(t, from, w, mustAdvance)
    case None => t[from..]
    case Some(m) =>
      t[from..m.start + m.kept] + repl + SubstituteFrom(t, m.end, w, repl, m.end == m.start)
  }

  /** One dictionary entry applied to the whole text. */
  function Substitute(t: string, w: string, repl: string): string {
    SubstituteFrom(t, 0, w, repl, false)
  }

  /** The entries applied one after another in the order of `ks`. */
  function ApplyKeys(d: map<string, string>, ks: seq<string>, t: string): string
    requires forall k :: k in ks ==> k in d
  {
    if ks == [] then t else ApplyKeys(d, ks[1..], Substitute(t, ks[0], d[ks[0]]))
  }

  /**
   * `db_apply_dictionary` as a value: an empty dictionary returns the text;
   * otherwise the entries are applied longest key first, and keys of equal
   * length in the order `ORDER BY word` returned them, which the stable sort
   * keeps.
   */
  function Normalise(d: map<string, string>, t: string): string {
    OrderedKeysSorted(d.Keys);
    if d == map[] then t else ApplyKeys(d, OrderedKeys(d.Keys), t)
  }

  // ---------------------------------------------------------------------
  // Properties
  // ---------------------------------------------------------------------

  /** An empty dictionary leaves every text as it is. */
  lemma EmptyDictionaryIsIdentity(t: string)
    ensures Normalise(map[], t) == t
  {
  }

  /** The entries are applied in non-increasing key length, so a phrase goes before every shorter key. */
  lemma LongestKeyFirst(d: map<string, string>, i: nat, j: nat)
    requires i < j < |d|
    ensures |OrderedKeys(d.Keys)| == |d|
    ensures |OrderedKeys(d.Keys)[i]| >= |OrderedKeys(d.Keys)[j]|
    ensures |OrderedKeys(d.Keys)[i]| == |OrderedKeys(d.Keys)[j]| ==> LexLess(OrderedKeys(d.Keys)[i], OrderedKeys(d.Keys)[j])
  {
    OrderedKeysSorted(d.Keys);
  }

  /** Where the pattern matches nowhere, the scan copies the rest of the text. */
  lemma {:induction false} NoMatchCopies(t: string, from: nat, w: string, repl: string, mustAdvance: bool)
    requires from <= |t|
    requires MatchAt(t, from, w, mustAdvance).None?
    requires forall p :: from < p <= |t| ==> MatchAt(t, p, w, false).None?
    ensures SubstituteFrom(t, from, w, repl, mustAdvance) == t[from..]
  {
    assert Search(t, from, w, mustAdvance).None?;
  }

  /** A key matched nowhere in the text leaves the text unchanged. */
  lemma NoMatchUnchanged(t: string, w: string, repl: string)
    requires forall p :: 0 <= p <= |t| ==> MatchAt(t, p, w, false).None?
    ensures Substitute(t, w, repl) == t
  {
    NoMatchCopies(t, 0, w, repl, false);
  }

  /**
   * Inside a text with no whitespace and no hyphen the pattern can only
   * match at the very start: a key that does not open the text is never
   * replaced, wherever else it occurs in it.
   */
  lemma {:induction false} InsideTokenUnchanged(t: string, w: string, repl: string)
    requires forall k :: 0 <= k < |t| ==> !LeftSeparator(t[k])
    requires !WordAt(t, 0, w)
    ensures Substitute(t, w, repl) == t
  {
    forall p | 0 <= p <= |t| ensures MatchAt(t, p, w, false).None? {
      if p > 0 {
        assert !IsSpace(t[p - 1]) && t[p - 1] != '\n';
      }
    }
    NoMatchUnchanged(t, w, repl);
  }

  /** "cat" inside "concatenate" is left alone. */
  lemma CatInsideConcatenate()
    ensures Substitute("concatenate", "cat", "dog") == "concatenate"
  {
    var t := "concatenate";
    assert t[1] != 'a';
    assert !SameLetter(t[1], "cat"[1]);
    InsideTokenUnchanged(t, "cat", "dog");
  }

  /** Two keys that differ only in case match at the same places. */
  lemma SameFoldMatchesAlike(t: string, p: nat, w: string, v: string, mustAdvance: bool)
    requires p <= |t| && |w| == |v|
    requires forall k :: 0 <= k < |w| ==> SameLetter(w[k], v[k])
    ensures MatchAt(t, p, w, mustAdvance) == MatchAt(t, p, v, mustAdvance)
  {
    assert forall q :: WordAt(t, q, w) <==> WordAt(t, q, v);
  }

  lemma {:induction false} SameFoldSearchesAlike(t: string, from: nat, w: string, v: string, mustAdvance: bool)
    requires from <= |t| && |w| == |v|
    requires forall k :: 0 <= k < |w| ==> SameLetter(w[k], v[k])
    ensures Search(t, from, w, mustAdvance) == Search(t, from, v, mustAdvance)
    decreases |t| - from
  {
    SameFoldMatchesAlike(t, from, w, v, mustAdvance);
    if MatchAt(t, from, w, mustAdvance).None? && from < |t| {
      SameFoldSearchesAlike(t, from + 1, w, v, false);
    }
  }

  lemma {:induction false} SameFoldSubstitutesAlike(t: string, from: nat, w: string, v: string, repl: string, mustAdvance: bool)
    requires from <= |t| && |w| == |v|
    requires forall k :: 0 <= k < |w| ==> SameLetter(w[k], v[k])
    ensures SubstituteFrom(t, from, w, repl, mustAdvance) == SubstituteFrom(t, from, v, repl, mustAdvance)
    decreases |t| - from, if mustAdvance then 0 else 1
  {
    var r := Search(t, from, w, mustAdvance);
    SameFoldSearchesAlike(t, from, w, v, mustAdvance);
    if r.Some? {
      var m := r.value;
      SameFoldSubstitutesAlike(t, m.end, w, v, repl, m.end == m.start);
    }
    SameSearchSameResult(t, from, w, v, repl, mustAdvance);
  }

  /**
   * Two keys the scan finds at the same place rewrite alike from `from`
   * when they rewrite alike from after that place.
   */
  lemma SameSearchSameResult(t: string, from: nat, w: string, v: string, repl: string, mustAdvance: bool)
    requires from <= |t| && Search(t, from, w, mustAdvance) == Search(t, from, v, mustAdvance)
    requires var r := Search(t, from, w, mustAdvance);
      r.Some? ==> SubstituteFrom(t, r.value.end, w, repl, r.value.end == r.value.start)
                  == SubstituteFrom(t, r.value.end, v, repl, r.value.end == r.value.start)
    ensures SubstituteFrom(t, from, w, repl, mustAdvance) == SubstituteFrom(t, from, v, repl, mustAdvance)
  {
    if Search(t, from, w, mustAdvance).Some? {
      SubstituteStep(t, from, w, repl, mustAdvance);
      SubstituteStep(t, from, v, repl, mustAdvance);
    } else {
      NoMatchStep(t, from, w, repl, mustAdvance);
      NoMatchStep(t, from, v, repl, mustAdvance);
    }
  }

  /** With no match left the scan copies the rest of the text. */
  lemma NoMatchStep(t: string, from: nat, w: string, repl: string, mustAdvance: bool)
    requires from <= |t| && Search(t, from, w, mustAdvance).None?
    ensures SubstituteFrom(t, from, w, repl, mustAdvance) == t[from..]
  {
  }

  /** One step of the scan: copy up to the match, keep its group 1, insert the replacement, go on after it. */
  lemma SubstituteStep(t: string, from: nat, w: string, repl: string, mustAdvance: bool)
    requires from <= |t| && Search(t, from, w, mustAdvance).Some?
    ensures var m := Search(t, from, w, mustAdvance).value;
      SubstituteFrom(t, from, w, repl, mustAdvance)
      == t[from..m.start + m.kept] + repl + SubstituteFrom(t, m.end, w, repl, m.end == m.start)
  {
  }

  /** Matching ignores case: a key and any re-cased spelling of it rewrite a text identically. */
  lemma KeyCaseIrrelevant(t: string, w: string, v: string, repl: string)
    requires |w| == |v|
    requires forall k :: 0 <= k < |w| ==> SameLetter(w[k], v[k])
    ensures Substitute(t, w, repl) == Substitute(t, v, repl)
  {
    SameFoldSubstitutesAlike(t, 0, w, v, repl, false);
  }

  /** A text with one match, and nothing after it, is rewritten at that match only. */
  lemma ReplacedOnce(t: string, w: string, repl: string, m: Match)
    requires Search(t, 0, w, false) == Some(m)
    requires SubstituteFrom(t, m.end, w, repl, m.end == m.start) == t[m.end..]
    ensures Substitute(t, w, repl) == t[..m.start + m.kept] + repl + t[m.end..]
  {
    SubstituteStep(t, 0, w, repl, false);
  }

  /** The search lands on `p` when the pattern matches there and nowhere between `from` and `p`. */
  lemma SearchLandsAt(t: string, from: nat, w: string, mustAdvance: bool, p: nat)
    requires from <= p <= |t|
    requires MatchAt(t, p, w, mustAdvance && p == from).Some?
    requires p > from ==> MatchAt(t, from, w, mustAdvance).None?
    requires forall q :: from < q < p ==> MatchAt(t, q, w, false).None?
    ensures Search(t, from, w, mustAdvance) == MatchAt(t, p, w, mustAdvance && p == from)
  {
  }

  /**
   * "KOT" after a hyphen matches the key "kot", and the hyphen is kept in
   * front of the replacement; the full stop after it is the right boundary.
   */
  lemma HyphenKeptCaseIgnored()
    ensures Substitute("Ala-KOT.", "kot", "pies") == "Ala-pies."
  {
    var t := "Ala-KOT.";
    var w := "kot";
    HyphenFound();
    HyphenRestCopied();
    ReplacedOnce(t, w, "pies", Match(3, 1, 7));
    assert t[..4] == "Ala-" && t[7..] == ".";
  }

  /** The scan of "Ala-KOT." for "kot" finds the hyphen-led match: group 1 is the hyphen, the match ends at 7. */
  lemma HyphenFound()
    ensures Search("Ala-KOT.", 0, "kot", false) == Some(Match(3, 1, 7))
  {
    var t := "Ala-KOT.";
    var w := "kot";
    assert !SameLetter(t[0], w[0]);
    forall q | 0 < q < 3 ensures MatchAt(t, q, w, false).None? {
      assert !LeftSeparator(t[q]);
    }
    assert WordAt(t, 4, w) by {
      assert SameLetter(t[4], w[0]) && SameLetter(t[5], w[1]) && SameLetter(t[6], w[2]);
    }
    assert MatchAt(t, 3, w, false) == Some(Match(3, 1, 7));
    SearchLandsAt(t, 0, w, false, 3);
  }

  /** After the match nothing is left to replace. */
  lemma HyphenRestCopied()
    ensures SubstituteFrom("Ala-KOT.", 7, "kot", "pies", false) == "."
  {
    var t := "Ala-KOT.";
    assert MatchAt(t, 7, "kot", false).None? by {
      assert !LeftSeparator(t[7]);
    }
    NoMatchCopies(t, 7, "kot", "pies", false);
  }

  /**
   * A key of several words matches across the space between them, and the
   * space in front of it is kept as group 1.
   */
  lemma PhraseReplaced()
    ensures Substitute("w san francisco", "san francisco", "SF") == "w SF"
  {
    var t := "w san francisco";
    var w := "san francisco";
    PhraseFound();
    PhraseRestCopied();
    ReplacedOnce(t, w, "SF", Match(1, 1, 15));
    assert t[..2] == "w " && t[15..] == [];
  }

  /** The phrase ends the text: nothing is left after it. */
  lemma PhraseRestCopied()
    ensures SubstituteFrom("w san francisco", 15, "san francisco", "SF", false) == []
  {
    NoMatchCopies("w san francisco", 15, "san francisco", "SF", false);
  }

  /** The scan of "w san francisco" for the phrase finds it after the leading "w". */
  lemma PhraseFound()
    ensures Search("w san francisco", 0, "san francisco", false) == Some(Match(1, 1, 15))
  {
    var t := "w san francisco";
    var w := "san francisco";
    assert WordAt(t, 2, w) by {
      assert t[2..] == w;
    }
    assert MatchAt(t, 1, w, false) == Some(Match(1, 1, 15));
    assert MatchAt(t, 0, w, false).None?;
    SearchLandsAt(t, 0, w, false, 1);
  }

  lemma PrefixFindsNothing()
    ensures Substitute("w SF", "san", "S.") == "w SF"
  {
    var u := "w SF";
    forall p | 0 <= p <= |u| ensures MatchAt(u, p, "san", false).None? {
      assert !SameLetter(u[0], 's');
    }
    NoMatchUnchanged(u, "san", "S.");
  }

  lemma LongerKeyFirst()
    ensures OrderedKeys({"san francisco", "san"}) == ["san francisco", "san"]
  {
    var ks := OrderedKeys({"san francisco", "san"});
    OrderedKeysSorted({"san francisco", "san"});
    assert |ks| == 2;
    assert "san francisco" in ks && "san" in ks;
    assert Precedes(ks[0], ks[1]);
  }

  /**
   * With both "san francisco" and "san" in the dictionary, the longer
   * phrase is applied first and the shorter key finds nothing left to
   * replace.
   */
  lemma PhraseBeforeItsPrefix()
    ensures Normalise(map["san francisco" := "SF", "san" := "S."], "w san francisco") == "w SF"
  {
    var d := map["san francisco" := "SF", "san" := "S."];
    assert d.Keys == {"san francisco", "san"};
    LongerKeyFirst();
    PhraseReplaced();
    PrefixFindsNothing();
    var ks := ["san francisco", "san"];
    assert ApplyKeys(d, ks, "w san francisco") == ApplyKeys(d, ks[1..], "w SF");
    assert ApplyKeys(d, ks[1..], "w SF") == ApplyKeys(d, [], "w SF");
  }
}
