/** Merging of near-duplicate requirement drafts by token overlap. */
module NearDuplicates {
  import opened Basics

  const EXCERPT := 80

  datatype Note = Merged(page: Option<int>, section: Option<string>, excerpt: string) | Other(text: string)

  /** A draft is updated in place: merging appends to its warnings. */
  class Draft {
    const text: string
    const page: Option<int>
    const section: Option<string>
    var warnings: seq<Note>

    constructor (text: string, page: Option<int>, section: Option<string>, warnings: seq<Note>)
      ensures this.text == text && this.page == page && this.section == section && this.warnings == warnings
    {
      this.text, this.page, this.section, this.warnings := text, page, section, warnings;
    }
  }

  // Overlap.

  /** `tokens` is the token set of a text after normalization. */
  datatype Measure = Measure(tokens: string -> set<string>, threshold: real)

  /** Jaccard overlap; 0 when either text has no token. */
  function Overlap(m: Measure, a: string, b: string): real {
    var s, t := m.tokens(a), m.tokens(b);
    if s == {} || t == {} then 0.0 else UnionIsLarger(s, t); |s * t| as real / |s + t| as real
  }

  lemma UnionIsLarger<T>(s: set<T>, t: set<T>)
    ensures |s * t| <= |s| <= |s + t|
  {
    SubsetIsSmaller(s * t, s);
    SubsetIsSmaller(s, s + t);
  }

  lemma SubsetIsSmaller<T>(s: set<T>, t: set<T>)
    requires s <= t
    ensures |s| <= |t|
  {
    assert t == s + (t - s);
  }

  predicate Close(m: Measure, a: string, b: string) {
    Overlap(m, a, b) >= m.threshold
  }

  /** Overlap is symmetric, between 0 and 1, and 1 exactly for equal token sets that are not empty. */
  lemma OverlapMeasures(m: Measure, a: string, b: string)
    ensures Overlap(m, a, b) == Overlap(m, b, a)
    ensures 0.0 <= Overlap(m, a, b) <= 1.0
    ensures Overlap(m, a, b) == 1.0 <==> m.tokens(a) == m.tokens(b) != {}
    ensures Overlap(m, a, b) * |m.tokens(a) + m.tokens(b)| as real
            == if m.tokens(a) == {} || m.tokens(b) == {} then 0.0 else |m.tokens(a) * m.tokens(b)| as real
  {
    var s, t := m.tokens(a), m.tokens(b);
    assert s * t == t * s && s + t == t + s;
    UnionIsLarger(s, t);
    if s != {} && t != {} {
      var inter, union := |s * t|, |s + t|;
      RatioIsAtMostOne(inter, union);
      if inter == union {
        EqualSizesMeanEqual(s * t, s + t);
      } else {
        assert s == t ==> s * t == s && s + t == s;
      }
    }
  }

  lemma RatioIsAtMostOne(p: nat, q: nat)
    requires p <= q && q > 0
    ensures 0.0 <= p as real / q as real <= 1.0
    ensures p as real / q as real == 1.0 <==> p == q
  {
    var r := p as real / q as real;
    assert r * q as real == p as real;
  }

  lemma EqualSizesMeanEqual<T>(s: set<T>, t: set<T>)
    requires s <= t && |s| == |t|
    ensures s == t
  {
    assert t == s + (t - s);
    assert |t - s| == 0;
  }

  // Which drafts are kept, by position, for any notion of closeness.

  type Relation = (nat, nat) -> bool

  /** The first position in `kept` that i is close to. */
  function FirstClose(close: Relation, kept: seq<nat>, i: nat): (r: Option<nat>)
    ensures r.Some? ==>
              r.value < |kept| && close(i, kept[r.value]) && forall k :: 0 <= k < r.value ==> !close(i, kept[k])
    ensures r.None? ==> forall k :: 0 <= k < |kept| ==> !close(i, kept[k])
  {
    if kept == [] then None
    else if close(i, kept[0]) then Some(0)
    else
      var next := FirstClose(close, kept[1..], i);
      if next.Some? then Some(next.value + 1) else None
  }

  /** Which of the first n drafts are kept. */
  function Kept(close: Relation, n: nat): seq<nat> {
    if n == 0 then []
    else
      var before := Kept(close, n - 1);
      if FirstClose(close, before, n - 1).None? then before + [n - 1] else before
  }

  /** Which kept draft a dropped one went to. */
  function Home(close: Relation, i: nat): Option<nat> {
    var before := Kept(close, i);
    var at := FirstClose(close, before, i);
    if at.Some? then Some(before[at.value]) else None
  }

  /** Where each dropped draft went, by position. */
  type Homes = nat -> Option<nat>

  function HomesOf(close: Relation): Homes {
    (i: nat) => Home(close, i)
  }

  /** The drafts among the first n that were merged into draft k, in input order. */
  function MergedInto(home: Homes, k: nat, n: nat): (r: seq<nat>)
    ensures forall j :: 0 <= j < |r| ==> r[j] < n
  {
    if n == 0 then [] else MergedInto(home, k, n - 1) + if home(n - 1) == Some(k) then [n - 1] else []
  }

  predicate Increasing(s: seq<nat>, n: nat) {
    (forall j, k :: 0 <= j < k < |s| ==> s[j] < s[k]) && forall k :: 0 <= k < |s| ==> s[k] < n
  }

  lemma {:induction false} KeptInOrder(close: Relation, n: nat)
    ensures Increasing(Kept(close, n), n)
  {
    if n > 0 {
      KeptInOrder(close, n - 1);
    }
  }

  /** Kept drafts are pairwise apart. */
  lemma {:induction false} KeptAreApart(close: Relation, n: nat)
    ensures forall j, k :: 0 <= j < k < |Kept(close, n)| ==> !close(Kept(close, n)[k], Kept(close, n)[j])
  {
    if n > 0 {
      KeptAreApart(close, n - 1);
    }
  }

  lemma {:induction false} KeptGrows(close: Relation, i: nat, n: nat)
    requires i <= n
    ensures forall k :: k < i ==> (k in Kept(close, n) <==> k in Kept(close, i))
    ensures i < n ==> (i in Kept(close, n) <==> Home(close, i).None?)
  {
    if i < n {
      KeptGrows(close, i, n - 1);
      KeptInOrder(close, i);
    }
  }

  lemma HomeIsKept(close: Relation, i: nat)
    requires Home(close, i).Some?
    ensures var home := Home(close, i).value;
            && home in Kept(close, i) && home < i && close(i, home)
            && forall k :: k in Kept(close, i) && k < home ==> !close(i, k)
  {
    KeptInOrder(close, i);
    FirstOfAll(close, Kept(close, i), i);
  }

  lemma FirstOfAll(close: Relation, kept: seq<nat>, i: nat)
    requires Increasing(kept, i) && FirstClose(close, kept, i).Some?
    ensures var home := kept[FirstClose(close, kept, i).value]; forall k :: k in kept && k < home ==> !close(i, k)
  {
    var at := FirstClose(close, kept, i).value;
    forall k | k in kept && k < kept[at] ensures !close(i, k) {
      var j :| 0 <= j < |kept| && kept[j] == k;
      assert j < at;
    }
  }

  /** A draft is dropped exactly when it is close to a kept draft before it, and it goes to the first such. */
  lemma DroppedExactlyWhenClose(close: Relation, i: nat, n: nat)
    requires i < n
    ensures i !in Kept(close, n) <==> exists k :: k in Kept(close, n) && k < i && close(i, k)
    ensures i !in Kept(close, n) ==>
              Home(close, i).Some?
              && var home := Home(close, i).value;
                 home in Kept(close, n) && home < i && close(i, home)
                 && forall k :: k in Kept(close, n) && k < home ==> !close(i, k)
  {
    KeptGrows(close, i, n);
    if Home(close, i).Some? {
      HomeIsKept(close, i);
    } else {
      NobodyIsClose(close, Kept(close, i), i);
    }
  }

  lemma NobodyIsClose(close: Relation, kept: seq<nat>, i: nat)
    requires FirstClose(close, kept, i).None?
    ensures forall k :: k in kept ==> !close(i, k)
  {
  }

  // Accounting.

  function MergedSum(home: Homes, kept: seq<nat>, n: nat): nat {
    if kept == [] then 0 else |MergedInto(home, kept[0], n)| + MergedSum(home, kept[1..], n)
  }

  lemma {:induction false} MergedSumStep(home: Homes, kept: seq<nat>, i: nat)
    requires Increasing(kept, i)
    ensures MergedSum(home, kept, i + 1) ==
            MergedSum(home, kept, i) + if home(i).Some? && home(i).value in kept then 1 else 0
  {
    if kept != [] {
      MergedSumStep(home, kept[1..], i);
      assert kept == [kept[0]] + kept[1..];
    }
  }

  lemma {:induction false} MergedSumAppends(home: Homes, kept: seq<nat>, k: nat, n: nat)
    ensures MergedSum(home, kept + [k], n) == MergedSum(home, kept, n) + |MergedInto(home, k, n)|
  {
    if kept == [] {
      assert (kept + [k])[1..] == [];
    } else {
      MergedSumAppends(home, kept[1..], k, n);
      assert (kept + [k])[1..] == kept[1..] + [k];
    }
  }

  ghost predicate Backward(home: Homes) {
    forall i :: home(i).Some? ==> home(i).value < i
  }

  lemma {:induction false} NothingMergedYet(home: Homes, k: nat, n: nat)
    requires Backward(home) && n <= k + 1
    ensures MergedInto(home, k, n) == []
  {
    if n > 0 {
      NothingMergedYet(home, k, n - 1);
    }
  }

  lemma HomesGoBackward(close: Relation)
    ensures Backward(HomesOf(close))
  {
    forall i | HomesOf(close)(i).Some? ensures HomesOf(close)(i).value < i {
      HomeIsKept(close, i);
    }
  }

  lemma KeptStep(close: Relation, n: nat)
    ensures Kept(close, n + 1) == if HomesOf(close)(n).None? then Kept(close, n) + [n] else Kept(close, n)
    ensures HomesOf(close)(n).Some? ==> HomesOf(close)(n).value in Kept(close, n)
    ensures Increasing(Kept(close, n), n)
  {
    KeptInOrder(close, n);
  }

  /** Nothing disappears without a trace: kept drafts plus the notes on them is the number of drafts. */
  lemma {:induction false} EveryDraftIsAccountedFor(close: Relation, n: nat)
    ensures |Kept(close, n)| + MergedSum(HomesOf(close), Kept(close, n), n) == n
  {
    if n > 0 {
      EveryDraftIsAccountedFor(close, n - 1);
      OneMoreIsAccountedFor(close, n - 1, HomesOf(close), Kept(close, n - 1));
    }
  }

  lemma OneMoreIsAccountedFor(close: Relation, i: nat, home: Homes, kept: seq<nat>)
    requires home == HomesOf(close) && kept == Kept(close, i) && |kept| + MergedSum(home, kept, i) == i
    ensures |Kept(close, i + 1)| + MergedSum(home, Kept(close, i + 1), i + 1) == i + 1
  {
    KeptStep(close, i);
    HomesGoBackward(close);
    AccountingStep(home, i, kept, Kept(close, i + 1));
  }

  lemma AccountingStep(home: Homes, i: nat, before: seq<nat>, after: seq<nat>)
    requires Backward(home) && Increasing(before, i) && |before| + MergedSum(home, before, i) == i
    requires after == if home(i).None? then before + [i] else before
    requires home(i).Some? ==> home(i).value in before
    ensures |after| + MergedSum(home, after, i + 1) == i + 1
  {
    MergedSumStep(home, before, i);
    if home(i).None? {
      MergedSumAppends(home, before, i, i + 1);
      NothingMergedYet(home, i, i + 1);
    }
  }

  // The method.

  function Texts(drafts: seq<Draft>): seq<string> {
    seq(|drafts|, i requires 0 <= i < |drafts| => drafts[i].text)
  }

  function Closeness(m: Measure, texts: seq<string>): Relation {
    (i: nat, k: nat) => i < |texts| && k < |texts| && Close(m, texts[i], texts[k])
  }

  ghost predicate Distinct(drafts: seq<Draft>) {
    forall i, j :: 0 <= i < j < |drafts| ==> drafts[i] != drafts[j]
  }

  function NoteOf(d: Draft): Note {
    Merged(d.page, d.section, d.text[..Min(EXCERPT, |d.text|)])
  }

  /** Draft i goes to the draft `d`. */
  ghost predicate GoesTo(home: Homes, drafts: seq<Draft>, i: nat, d: Draft) {
    home(i).Some? && home(i).value < |drafts| && drafts[home(i).value] == d
  }

  /** One note for every draft among the first n that went to `d`, in input order. */
  ghost function NotesOn(home: Homes, drafts: seq<Draft>, d: Draft, n: nat): seq<Note>
    requires n <= |drafts|
  {
    if n == 0 then []
    else NotesOn(home, drafts, d, n - 1) + if GoesTo(home, drafts, n - 1, d) then [NoteOf(drafts[n - 1])] else []
  }

  /** When no draft is listed twice, a kept one has exactly the notes of what was merged into its place. */
  lemma {:induction false} NotesOnDistinctDrafts(home: Homes, drafts: seq<Draft>, k: nat, n: nat)
    requires Distinct(drafts) && Backward(home) && k < |drafts| && n <= |drafts|
    ensures var merged := MergedInto(home, k, n);
            && |NotesOn(home, drafts, drafts[k], n)| == |merged|
            && forall j :: 0 <= j < |merged| ==> NotesOn(home, drafts, drafts[k], n)[j] == NoteOf(drafts[merged[j]])
  {
    if n > 0 {
      NotesOnDistinctDrafts(home, drafts, k, n - 1);
      assert GoesTo(home, drafts, n - 1, drafts[k]) <==> home(n - 1) == Some(k);
    }
  }

  ghost predicate AreKept(close: Relation, drafts: seq<Draft>, n: nat, kept: seq<Draft>)
    requires n <= |drafts|
  {
    var positions := Kept(close, n);
    |kept| == |positions| && forall k :: 0 <= k < |kept| ==> positions[k] < n && kept[k] == drafts[positions[k]]
  }

  lemma KeepingStep(close: Relation, drafts: seq<Draft>, i: nat, kept: seq<Draft>)
    requires i < |drafts| && AreKept(close, drafts, i, kept)
    ensures AreKept(close, drafts, i + 1, if Home(close, i).None? then kept + [drafts[i]] else kept)
  {
  }

  method FindClose(m: Measure, drafts: seq<Draft>, i: nat, kept: seq<Draft>, ghost close: Relation)
    returns (at: Option<nat>)
    requires i < |drafts| && close == Closeness(m, Texts(drafts)) && AreKept(close, drafts, i, kept)
    ensures at == FirstClose(close, Kept(close, i), i)
  {
    ghost var positions := Kept(close, i);
    for k := 0 to |kept|
      invariant forall j :: 0 <= j < k ==> !close(i, positions[j])
    {
      assert close(i, positions[k]) <==> Close(m, drafts[i].text, kept[k].text);
      if Overlap(m, drafts[i].text, kept[k].text) >= m.threshold {
        return Some(k);
      }
    }
    return None;
  }

  /** Every draft carries the warnings it came with and its notes so far. */
  ghost predicate Annotated(home: Homes, drafts: seq<Draft>, n: nat, initial: seq<seq<Note>>)
    requires n <= |drafts|
    reads drafts
  {
    && |initial| == |drafts|
    && forall k :: 0 <= k < |drafts| ==> drafts[k].warnings == initial[k] + NotesOn(home, drafts, drafts[k], n)
  }

  method MergeDraft(ghost home: Homes, drafts: seq<Draft>, i: nat, existing: Draft, ghost initial: seq<seq<Note>>)
    requires i < |drafts| && Annotated(home, drafts, i, initial)
    requires home(i).Some? && home(i).value < |drafts| && existing == drafts[home(i).value]
    modifies existing
    ensures Annotated(home, drafts, i + 1, initial)
  {
    existing.warnings := existing.warnings + [NoteOf(drafts[i])];
    assert forall k :: 0 <= k < |drafts| ==> (GoesTo(home, drafts, i, drafts[k]) <==> drafts[k] == existing);
  }

  lemma KeepingAddsNoNote(home: Homes, drafts: seq<Draft>, i: nat, initial: seq<seq<Note>>)
    requires i < |drafts| && Annotated(home, drafts, i, initial) && home(i).None?
    ensures Annotated(home, drafts, i + 1, initial)
  {
  }

  ghost function Warnings(drafts: seq<Draft>): seq<seq<Note>>
    reads drafts
  {
    seq(|drafts|, k requires 0 <= k < |drafts| reads drafts => drafts[k].warnings)
  }

  lemma NothingToNoteAtFirst(home: Homes, drafts: seq<Draft>)
    ensures Annotated(home, drafts, 0, Warnings(drafts))
  {
  }

  /** One turn of the loop. */
  method Place(m: Measure, drafts: seq<Draft>, i: nat, kept: seq<Draft>, ghost close: Relation,
               ghost initial: seq<seq<Note>>)
    returns (now: seq<Draft>)
    requires i < |drafts| && close == Closeness(m, Texts(drafts))
    requires AreKept(close, drafts, i, kept) && Annotated(HomesOf(close), drafts, i, initial)
    modifies drafts
    ensures AreKept(close, drafts, i + 1, now) && Annotated(HomesOf(close), drafts, i + 1, initial)
  {
    var at := FindClose(m, drafts, i, kept, close);
    KeepingStep(close, drafts, i, kept);
    if at.Some? {
      MergeDraft(HomesOf(close), drafts, i, kept[at.value], initial);
      return kept;
    }
    KeepingAddsNoNote(HomesOf(close), drafts, i, initial);
    return kept + [drafts[i]];
  }

  /**
   * `deduplicate_requirements`: the kept drafts in order, and on every draft one note for each that was
   * merged into it.
   */
  method Deduplicate(m: Measure, drafts: seq<Draft>) returns (kept: seq<Draft>)
    modifies drafts
    ensures AreKept(Closeness(m, Texts(drafts)), drafts, |drafts|, kept)
    ensures Annotated(HomesOf(Closeness(m, Texts(drafts))), drafts, |drafts|, old(Warnings(drafts)))
  {
    kept := [];
    ghost var close, initial := Closeness(m, Texts(drafts)), Warnings(drafts);
    NothingToNoteAtFirst(HomesOf(close), drafts);
    for i := 0 to |drafts|
      invariant AreKept(close, drafts, i, kept)
      invariant Annotated(HomesOf(close), drafts, i, initial)
    {
      kept := Place(m, drafts, i, kept, close, initial);
    }
  }

  // A second pass.

  function KeptTexts(m: Measure, texts: seq<string>): seq<string> {
    var kept := Kept(Closeness(m, texts), |texts|);
    seq(|kept|, k requires 0 <= k < |kept| => if kept[k] < |texts| then texts[kept[k]] else "")
  }

  lemma {:induction false} ApartDraftsAreAllKept(close: Relation, n: nat)
    requires forall j, k :: 0 <= j < k < n ==> !close(k, j)
    ensures |Kept(close, n)| == n && forall k :: 0 <= k < n ==> Kept(close, n)[k] == k
  {
    if n > 0 {
      ApartDraftsAreAllKept(close, n - 1);
    }
  }

  /** A second pass over what was kept drops nothing. */
  lemma ASecondPassDropsNothing(m: Measure, texts: seq<string>)
    ensures var again := KeptTexts(m, texts); |Kept(Closeness(m, again), |again|)| == |again|
  {
    var close, again := Closeness(m, texts), KeptTexts(m, texts);
    KeptAreApart(close, |texts|);
    KeptInOrder(close, |texts|);
    forall j, k | 0 <= j < k < |again| ensures !Closeness(m, again)(k, j) {
      assert !close(Kept(close, |texts|)[k], Kept(close, |texts|)[j]);
    }
    ApartDraftsAreAllKept(Closeness(m, again), |again|);
  }

  /** A draft without tokens is kept whatever came before it, as long as the threshold is positive. */
  lemma DraftsWithoutTokensAreKept(m: Measure, texts: seq<string>, i: nat)
    requires i < |texts| && m.tokens(texts[i]) == {} && m.threshold > 0.0
    ensures i in Kept(Closeness(m, texts), |texts|)
  {
    var close := Closeness(m, texts);
    DroppedExactlyWhenClose(close, i, |texts|);
    forall k: nat ensures !close(i, k) {
      if k < |texts| {
        assert Overlap(m, texts[i], texts[k]) == 0.0;
      }
    }
  }

  /** A merge notes where the draft came from and how its text begins. */
  lemma ANoteQuotesTheDraft(d: Draft)
    ensures NoteOf(d).Merged? && NoteOf(d).page == d.page && NoteOf(d).section == d.section
    ensures NoteOf(d).excerpt <= d.text && |NoteOf(d).excerpt| == Min(80, |d.text|)
  {
  }
}
