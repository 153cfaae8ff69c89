/** Quotes of page text up to white space and case: the normalization, the check, and the passages a search offers. */
module EvidenceQuotes {
  import opened Basics
  import opened PythonText

  const SNIPPET_MIN := 10
  const SNIPPET_MAX := 2000

  /** `re.sub(r"\s+", " ", s)`. */
  function Collapse(s: string): string
    decreases |s|
  {
    if s == "" then "" else if !IsSpace(s[0]) then [s[0]] + Collapse(s[1..]) else " " + Collapse(s[LeadingSpace(s)..])
  }

  /** Case folding works character by character; `fold` gives the folding of one. */
  function Fold(fold: char -> string, s: string): string {
    if s == "" then "" else fold(s[0]) + Fold(fold, s[1..])
  }

  predicate SpaceFree(s: string) {
    forall i :: 0 <= i < |s| ==> !IsSpace(s[i])
  }

  /** What Unicode case folding guarantees: spaces stay, text stays text, and folding twice is folding once. */
  ghost predicate IsCaseFolding(fold: char -> string) {
    && fold(' ') == " "
    && forall c :: !IsSpace(c) ==> fold(c) != "" && SpaceFree(fold(c)) && Fold(fold, fold(c)) == fold(c)
  }

  function Normalize(fold: char -> string, s: string): string {
    Fold(fold, Strip(Collapse(s)))
  }

  // White space.

  /** Single plain spaces only. */
  predicate Collapsed(s: string) {
    forall i :: 0 <= i < |s| && IsSpace(s[i]) ==> s[i] == ' ' && (i + 1 < |s| ==> !IsSpace(s[i + 1]))
  }

  /** Where two texts meet there is no run of spaces to merge. */
  predicate Seamless(x: string, y: string) {
    x == "" || y == "" || !IsSpace(x[|x| - 1]) || !IsSpace(y[0])
  }

  lemma LeadingIs(s: string, n: nat)
    requires n <= |s| && Blank(s[..n]) && (n < |s| ==> !IsSpace(s[n]))
    ensures LeadingSpace(s) == n
  {
    BlankSlice(s, 0, n);
    BlankSlice(s, 0, LeadingSpace(s));
  }

  lemma EndIs(s: string, n: nat)
    requires n <= |s| && Blank(s[n..]) && (0 < n ==> !IsSpace(s[n - 1]))
    ensures TrimmedEnd(s) == n
  {
    BlankSlice(s, n, |s|);
    BlankSlice(s, TrimmedEnd(s), |s|);
  }

  /** How much of a text the first step of collapsing takes. */
  function FirstRun(s: string): nat
    requires s != ""
  {
    if IsSpace(s[0]) then LeadingSpace(s) else 1
  }

  lemma FirstRunOfBoth(x: string, y: string)
    requires x != "" && Seamless(x, y)
    ensures FirstRun(x + y) == FirstRun(x) <= |x|
  {
    var n := LeadingSpace(x);
    assert (x + y)[..n] == x[..n];
    BlankSlice(x, 0, n);
    LeadingIs(x + y, n);
  }

  lemma CollapseStep(s: string, n: nat)
    requires s != "" && n == FirstRun(s)
    ensures n <= |s| && Collapse(s) == [if IsSpace(s[0]) then ' ' else s[0]] + Collapse(s[n..])
  {
  }

  lemma RestIsSeamless(x: string, y: string, n: nat)
    requires Seamless(x, y) && n <= |x|
    ensures Seamless(x[n..], y) && (x + y)[n..] == x[n..] + y
  {
    if n < |x| {
      assert x[n..][|x| - n - 1] == x[|x| - 1];
    }
  }

  lemma Associates(a: string, b: string, c: string)
    ensures a + (b + c) == (a + b) + c
  {
  }

  lemma {:induction false} CollapseSplits(x: string, y: string)
    requires Seamless(x, y)
    ensures Collapse(x + y) == Collapse(x) + Collapse(y)
    decreases |x|
  {
    if x == "" {
      assert x + y == y;
    } else {
      var n := FirstRun(x);
      FirstRunOfBoth(x, y);
      CollapseStep(x, n);
      CollapseStep(x + y, n);
      RestIsSeamless(x, y, n);
      CollapseSplits(x[n..], y);
      Associates([if IsSpace(x[0]) then ' ' else x[0]], Collapse(x[n..]), Collapse(y));
    }
  }

  lemma CollapsedJoins(x: string, y: string)
    requires Collapsed(x) && Collapsed(y) && Seamless(x, y)
    ensures Collapsed(x + y)
  {
  }

  lemma {:induction false} CollapseCollapses(s: string)
    ensures Collapsed(Collapse(s))
    ensures Collapse(s) == "" <==> s == ""
    ensures s != "" ==> (IsSpace(Collapse(s)[0]) <==> IsSpace(s[0]))
    decreases |s|
  {
    if s != "" {
      var n := if IsSpace(s[0]) then LeadingSpace(s) else 1;
      CollapseCollapses(s[n..]);
      CollapsedJoins(if IsSpace(s[0]) then " " else [s[0]], Collapse(s[n..]));
    }
  }

  lemma {:induction false} CollapseKeepsCollapsed(s: string)
    requires Collapsed(s)
    ensures Collapse(s) == s
    decreases |s|
  {
    if s != "" {
      if IsSpace(s[0]) {
        assert s[..1] == [s[0]];
        LeadingIs(s, 1);
      }
      CollapseKeepsCollapsed(s[1..]);
      assert s == [s[0]] + s[1..];
    }
  }

  lemma {:induction false} BlankCollapses(s: string)
    requires Blank(s)
    ensures Blank(Collapse(s))
  {
    if s != "" {
      assert s[..|s|] == s;
      LeadingIs(s, |s|);
    }
  }

  /** A trimmed text collapses to a trimmed one. */
  lemma CollapseKeepsEnds(s: string)
    requires Trimmed(s) && s != ""
    ensures Collapse(s) != "" && Trimmed(Collapse(s))
  {
    CollapseCollapses(s);
    var n := |s| - 1;
    assert s == s[..n] + [s[n]];
    CollapseSplits(s[..n], [s[n]]);
    assert [s[n]][1..] == "" && Collapse([s[n]]) == [s[n]];
  }

  lemma StripOf(s: string, i: nat, j: nat)
    requires i <= j <= |s| && Blank(s[..i]) && Blank(s[j..]) && (i < j ==> !IsSpace(s[i]) && !IsSpace(s[j - 1]))
    requires i < j
    ensures Strip(s) == s[i..j]
  {
    LeadingIs(s, i);
    assert s[i..][j - i..] == s[j..];
    EndIs(s[i..], j - i);
  }

  lemma SliceAround(pre: string, core: string, post: string, i: nat, e: nat)
    requires i <= |pre| && e <= |post| && core != ""
    ensures var s, j := pre + core + post, |pre| + |core| + e;
            && s[i..j] == pre[i..] + core + post[..e] && s[..i] == pre[..i] && s[j..] == post[e..]
            && s[i] == (if i < |pre| then pre[i] else core[0])
            && s[j - 1] == (if e > 0 then post[e - 1] else core[|core| - 1])
  {
  }

  lemma StripAround(pre: string, core: string, post: string)
    requires core != "" && Trimmed(core)
    ensures Strip(pre + core + post) == pre[LeadingSpace(pre)..] + core + post[..TrimmedEnd(post)]
  {
    var i, e := LeadingSpace(pre), TrimmedEnd(post);
    SliceAround(pre, core, post, i, e);
    StripOf(pre + core + post, i, |pre| + |core| + e);
  }

  lemma BlankEnds(s: string)
    requires Blank(s)
    ensures LeadingSpace(s) == |s| && TrimmedEnd(s) == 0
  {
    assert s[..|s|] == s && s[0..] == s;
    LeadingIs(s, |s|);
    EndIs(s, 0);
  }

  /** Around a trimmed core, collapsing and stripping leave the collapsed core in place. */
  lemma CoreStays(pre: string, core: string, post: string) returns (x: string, y: string)
    requires core != "" && Trimmed(core)
    ensures Strip(Collapse(pre + core + post)) == x + Collapse(core) + y
    ensures Blank(pre) && Blank(post) ==> x == "" && y == ""
  {
    CollapseSplits(pre + core, post);
    CollapseSplits(pre, core);
    CollapseKeepsEnds(core);
    var a, b := Collapse(pre), Collapse(post);
    StripAround(a, Collapse(core), b);
    x, y := a[LeadingSpace(a)..], b[..TrimmedEnd(b)];
    if Blank(pre) && Blank(post) {
      BlankCollapses(pre);
      BlankCollapses(post);
      BlankEnds(a);
      BlankEnds(b);
    }
  }

  // Case folding.

  lemma {:induction false} FoldAppends(fold: char -> string, x: string, y: string)
    ensures Fold(fold, x + y) == Fold(fold, x) + Fold(fold, y)
  {
    if x == "" {
      assert x + y == y;
    } else {
      FoldAppends(fold, x[1..], y);
      assert (x + y)[1..] == x[1..] + y && (x + y)[0] == x[0];
      Associates(fold(x[0]), Fold(fold, x[1..]), Fold(fold, y));
    }
  }

  lemma {:induction false} FoldKeepsShape(fold: char -> string, s: string)
    requires IsCaseFolding(fold) && Collapsed(s)
    ensures Collapsed(Fold(fold, s))
    ensures Fold(fold, s) == "" <==> s == ""
    ensures s != "" ==> (IsSpace(Fold(fold, s)[0]) <==> IsSpace(s[0]))
    ensures s != "" ==> (IsSpace(Fold(fold, s)[|Fold(fold, s)| - 1]) <==> IsSpace(s[|s| - 1]))
  {
    if s != "" {
      var tail := Fold(fold, s[1..]);
      FoldKeepsShape(fold, s[1..]);
      CollapsedJoins(fold(s[0]), tail);
      assert Fold(fold, s) == fold(s[0]) + tail;
    }
  }

  lemma {:induction false} FoldingTwice(fold: char -> string, s: string)
    requires IsCaseFolding(fold) && Collapsed(s)
    ensures Fold(fold, Fold(fold, s)) == Fold(fold, s)
  {
    if s != "" {
      FoldingTwice(fold, s[1..]);
      FoldAppends(fold, fold(s[0]), Fold(fold, s[1..]));
      assert Fold(fold, " ") == fold(' ') + "";
    }
  }

  lemma StripKeepsCollapsed(s: string)
    requires Collapsed(s)
    ensures Collapsed(Strip(s)) && Trimmed(Strip(s))
  {
    var i, j := StripIsTheMiddle(s);
  }

  /** Normalizing twice is normalizing once. */
  lemma NormalizationIsIdempotent(fold: char -> string, s: string)
    requires IsCaseFolding(fold)
    ensures Normalize(fold, Normalize(fold, s)) == Normalize(fold, s)
  {
    var text := Strip(Collapse(s));
    CollapseCollapses(s);
    StripKeepsCollapsed(Collapse(s));
    FoldKeepsShape(fold, text);
    CollapseKeepsCollapsed(Fold(fold, text));
    StrippedStays(Fold(fold, text));
    FoldingTwice(fold, text);
  }

  // Quotes.

  function QuoteExists(fold: char -> string, snippet: string, page: string): bool {
    snippet != "" && page != "" && Contains(Normalize(fold, page), Normalize(fold, snippet))
  }

  predicate OccursAt(s: string, q: string, i: nat) {
    i + |q| <= |s| && s[i..i + |q|] == q
  }

  /** `q in s`. */
  predicate Contains(s: string, q: string) {
    exists i :: 0 <= i <= |s| && OccursAt(s, q, i)
  }

  lemma MiddleIsContained(x: string, q: string, y: string)
    ensures Contains(x + q + y, q)
  {
    assert OccursAt(x + q + y, q, |x|);
  }

  lemma NormalizeStripped(fold: char -> string, s: string)
    requires Strip(s) != ""
    ensures Normalize(fold, s) == Fold(fold, Collapse(Strip(s)))
  {
    var i, j := StripIsTheMiddle(s);
    assert s == s[..i] + Strip(s) + s[j..];
    var x, y := CoreStays(s[..i], Strip(s), s[j..]);
    assert x + Collapse(Strip(s)) + y == Collapse(Strip(s));
  }

  lemma NormalizeBlank(fold: char -> string, s: string)
    requires Blank(s)
    ensures Normalize(fold, s) == ""
  {
    BlankCollapses(s);
    StripIsEmptyForBlanks(Collapse(s));
  }

  lemma FoldedMiddle(fold: char -> string, x: string, core: string, y: string)
    ensures Contains(Fold(fold, x + core + y), Fold(fold, core))
  {
    FoldAppends(fold, x + core, y);
    FoldAppends(fold, x, core);
    MiddleIsContained(Fold(fold, x), Fold(fold, core), Fold(fold, y));
  }

  lemma CoresSurvive(fold: char -> string, pre: string, core: string, post: string)
    requires core != "" && Trimmed(core)
    ensures Contains(Normalize(fold, pre + core + post), Fold(fold, Collapse(core)))
  {
    var x, y := CoreStays(pre, core, post);
    FoldedMiddle(fold, x, Collapse(core), y);
  }

  lemma CutOut(page: string, i: nat, j: nat, a: nat, b: nat)
    requires i <= j <= |page| && a <= b <= j - i
    ensures page == page[..i + a] + page[i..j][a..b] + page[i + b..]
  {
  }

  /** Any stretch of a page is still a stretch of it after both are normalized. */
  lemma QuotesSurviveNormalization(fold: char -> string, page: string, i: nat, j: nat)
    requires i <= j <= |page|
    ensures Contains(Normalize(fold, page), Normalize(fold, page[i..j]))
  {
    var q := page[i..j];
    StripIsEmptyForBlanks(q);
    if Strip(q) == "" {
      NormalizeBlank(fold, q);
      assert OccursAt(Normalize(fold, page), "", 0);
    } else {
      var a, b := StripIsTheMiddle(q);
      NormalizeStripped(fold, q);
      CutOut(page, i, j, a, b);
      CoresSurvive(fold, page[..i + a], Strip(q), page[i + b..]);
    }
  }

  // Searching and validating.

  datatype Page = Page(number: int, content: string)

  datatype Document = Document(id: Uuid, project: Uuid, processed: bool, knowledgeBase: bool, approved: bool,
                               ingested: bool, content: string, pages: seq<Page>)

  datatype Refusal = Refusal(http: nat, detail: string)

  datatype Canonical = Canonical(snippet: string, page: Option<int>)

  function PageNumbered(pages: seq<Page>, number: int): Option<Page> {
    if pages == [] then None else if pages[0].number == number then Some(pages[0]) else PageNumbered(pages[1..], number)
  }

  /** `validate_evidence_candidate`. */
  function Validate(fold: char -> string, doc: Option<Document>, project: Uuid, page: Option<int>,
                    snippet: string): Result<Canonical, Refusal> {
    if doc.None? || doc.value.project != project then Err(Refusal(404, "Document not found"))
    else if !doc.value.processed then Err(Refusal(400, "Document is not fully processed"))
    else if doc.value.knowledgeBase && !doc.value.approved then
      Err(Refusal(400, "Document is not approved for use as evidence"))
    else if !doc.value.ingested then Err(Refusal(400, "Document has not completed security processing"))
    else
      var text := Strip(snippet);
      if |text| < SNIPPET_MIN then Err(Refusal(422, "Evidence snippet is too short"))
      else if |text| > SNIPPET_MAX then Err(Refusal(422, "Evidence snippet is too long"))
      else if page.Some? then
        var found := PageNumbered(doc.value.pages, page.value);
        if found.None? then Err(Refusal(400, "Page number does not exist for this document"))
        else if !QuoteExists(fold, text, found.value.content) then
          Err(Refusal(400, "Evidence snippet not found on the specified page"))
        else Ok(Canonical(text, page))
      else if doc.value.content == "" then
        Err(Refusal(400, "Document has no extracted text content; provide a page number"))
      else if !QuoteExists(fold, text, doc.value.content) then
        Err(Refusal(400, "Evidence snippet not found in document content"))
      else Ok(Canonical(text, page))
  }

  /** A row of the search: a document that passes its WHERE clause, and one of its pages. */
  datatype Row = Row(doc: Document, page: Page)

  predicate Searchable(doc: Document, project: Uuid) {
    doc.project == project && doc.knowledgeBase && doc.approved && doc.processed && doc.ingested
  }

  ghost predicate Found(rows: seq<Row>, project: Uuid) {
    forall i :: 0 <= i < |rows| ==>
                  Searchable(rows[i].doc, project)
                  && PageNumbered(rows[i].doc.pages, rows[i].page.number) == Some(rows[i].page)
  }

  datatype Offer = Offer(doc: Uuid, page: int, snippet: string)

  predicate LongEnough(row: Row) {
    |Strip(row.page.content)| >= SNIPPET_MIN
  }

  function OfferOf(row: Row): Offer {
    var raw := Strip(row.page.content);
    Offer(row.doc.id, row.page.number, raw[..Min(SNIPPET_MAX, |raw|)])
  }

  function Offers(rows: seq<Row>): seq<Offer>
    decreases |rows|
  {
    if rows == [] then []
    else Offers(rows[..|rows| - 1]) + if LongEnough(rows[|rows| - 1]) then [OfferOf(rows[|rows| - 1])] else []
  }

  /** The loop of `retrieve_evidence` over the rows a search returned. */
  method RetrieveEvidence(rows: seq<Row>) returns (results: seq<Offer>)
    ensures results == Offers(rows)
  {
    results := [];
    for i := 0 to |rows|
      invariant results == Offers(rows[..i])
    {
      assert rows[..i + 1][..i] == rows[..i];
      var raw := Strip(rows[i].page.content);
      if |raw| < SNIPPET_MIN {
        continue;
      }
      var snippet := raw[..Min(SNIPPET_MAX, |raw|)];
      results := results + [Offer(rows[i].doc.id, rows[i].page.number, snippet)];
    }
    assert rows[..|rows|] == rows;
  }

  lemma SliceOfASlice(s: string, p: nat, q: nat, n: nat, a: nat, b: nat)
    requires p <= q <= |s| && n <= q - p && a <= b <= n
    ensures s[p..q][..n] == s[p..p + n] && s[p..q][..n][a..b] == s[p + a..p + b]
  {
    var shorter := s[p..p + n];
    assert s[p..q][..n] == shorter;
    forall k | 0 <= k < b - a ensures shorter[a..b][k] == s[p + a..p + b][k] {
      assert shorter[a + k] == s[p + a + k];
    }
  }

  lemma OfferIsAStretch(row: Row) returns (i: nat, j: nat)
    ensures i <= j <= |row.page.content| && Strip(OfferOf(row).snippet) == row.page.content[i..j]
    ensures j - i <= SNIPPET_MAX
  {
    var content, snippet := row.page.content, OfferOf(row).snippet;
    var p, q := StripIsTheMiddle(content);
    var a, b := StripIsTheMiddle(snippet);
    i, j := p + a, p + b;
    SliceOfASlice(content, p, q, |snippet|, a, b);
  }

  /**
   * A passage the search offers is accepted as evidence on its page exactly when it still has ten
   * characters once trimmed again; cutting at 2000 characters can leave white space at its end.
   */
  lemma OfferedPassagesValidate(fold: char -> string, rows: seq<Row>, project: Uuid, k: nat)
    requires Found(rows, project) && k < |rows| && LongEnough(rows[k])
    ensures var offer := OfferOf(rows[k]);
            && (Validate(fold, Some(rows[k].doc), project, Some(offer.page), offer.snippet).Ok?
                <==> |Strip(offer.snippet)| >= SNIPPET_MIN)
            && (|Strip(offer.snippet)| >= SNIPPET_MIN ==>
                  Validate(fold, Some(rows[k].doc), project, Some(offer.page),
                           offer.snippet) == Ok(Canonical(Strip(offer.snippet), Some(offer.page))))
  {
    var row := rows[k];
    var text := Strip(OfferOf(row).snippet);
    var i, j := OfferIsAStretch(row);
    QuotesSurviveNormalization(fold, row.page.content, i, j);
  }

  /** A page of one letter, two thousand spaces and another letter is offered and then refused. */
  lemma AnOfferCanBeRefused(fold: char -> string, doc: Document, project: Uuid)
    requires Searchable(doc, project) && doc.pages == [Page(1, "a" + seq(SNIPPET_MAX, _ => ' ') + "b")]
    ensures var row := Row(doc, doc.pages[0]);
            && LongEnough(row)
            && Validate(fold, Some(doc), project, Some(1), OfferOf(row).snippet)
               == Err(Refusal(422, "Evidence snippet is too short"))
  {
    var gap := seq(SNIPPET_MAX, _ => ' ');
    var content := "a" + gap + "b";
    StrippedStays(content);
    var snippet := content[..SNIPPET_MAX];
    assert snippet == "" + "a" + gap[..SNIPPET_MAX - 1];
    BlankEnds(gap[..SNIPPET_MAX - 1]);
    StripAround("", "a", gap[..SNIPPET_MAX - 1]);
    assert |Strip(snippet)| == 1;
  }

  // What normalizing and validating are, from their results.

  lemma RunsCollapse(s: string)
    ensures SpaceFree(s) ==> Collapse(s) == s
    ensures Blank(s) && s != "" ==> Collapse(s) == " "
  {
    if SpaceFree(s) {
      CollapseKeepsCollapsed(s);
    }
    if Blank(s) && s != "" {
      BlankEnds(s);
      assert s[|s|..] == "";
    }
  }

  lemma FoldOfOne(fold: char -> string, c: char)
    ensures Fold(fold, [c]) == fold(c)
  {
    assert [c][1..] == "";
  }

  /** One word among white space normalizes to the word, folded. */
  lemma AWordNormalizes(fold: char -> string, pre: string, word: string, post: string)
    requires Blank(pre) && Blank(post) && SpaceFree(word) && word != ""
    ensures Normalize(fold, pre + word + post) == Fold(fold, word)
  {
    CollapseKeepsCollapsed(word);
    var x, y := CoreStays(pre, word, post);
    assert x + word + y == word;
  }

  /** Two texts with white space between them normalize to the two, normalized, with one space between them. */
  lemma NormalizesPartByPart(fold: char -> string, x: string, gap: string, y: string)
    requires Trimmed(x) && x != "" && Trimmed(y) && y != "" && Blank(gap) && gap != ""
    ensures Normalize(fold, x + gap + y) == Normalize(fold, x) + fold(' ') + Normalize(fold, y)
  {
    CollapseSplits(x + gap, y);
    CollapseSplits(x, gap);
    RunsCollapse(gap);
    CollapseKeepsEnds(x);
    CollapseKeepsEnds(y);
    var a, b := Collapse(x), Collapse(y);
    StrippedStays(a);
    StrippedStays(b);
    StrippedStays(a + " " + b);
    FoldAppends(fold, a + " ", b);
    FoldAppends(fold, a, " ");
    FoldOfOne(fold, ' ');
  }

  /** A quote is found exactly if neither text is empty and its normal form is a stretch of the page's. */
  lemma QuotesExactlyWhen(fold: char -> string, snippet: string, page: string)
    ensures var q, text := Normalize(fold, snippet), Normalize(fold, page);
            QuoteExists(fold, snippet, page) <==>
            && snippet != "" && page != ""
            && exists i, j :: 0 <= i <= j <= |text| && text[i..j] == q
  {
    var q, text := Normalize(fold, snippet), Normalize(fold, page);
    if i, j :| 0 <= i <= j <= |text| && text[i..j] == q {
      assert OccursAt(text, q, i);
    }
    if Contains(text, q) {
      var i :| 0 <= i <= |text| && OccursAt(text, q, i);
      assert text[i..i + |q|] == q;
    }
  }

  lemma {:induction false} PageNumberedIsTheFirst(pages: seq<Page>, number: int)
    ensures PageNumbered(pages, number).None? <==> forall i :: 0 <= i < |pages| ==> pages[i].number != number
    ensures forall i :: 0 <= i < |pages| && pages[i].number == number
                        && (forall j :: 0 <= j < i ==> pages[j].number != number)
                        ==> PageNumbered(pages, number) == Some(pages[i])
  {
    if pages != [] {
      PageNumberedIsTheFirst(pages[1..], number);
      forall i | 0 <= i < |pages| && pages[i].number == number && (forall j :: 0 <= j < i ==> pages[j].number != number)
        ensures PageNumbered(pages, number) == Some(pages[i])
      {
        if i > 0 {
          assert pages[1..][i - 1] == pages[i];
          assert forall j :: 0 <= j < i - 1 ==> pages[1..][j].number == pages[j + 1].number;
        }
      }
    }
  }

  /** What a piece of evidence must get past, in its order. */
  function EvidenceHurdles(fold: char -> string, doc: Option<Document>, project: Uuid, page: Option<int>,
                           snippet: string): seq<Hurdle<Refusal>> {
    var d := if doc.Some? then doc.value else Document(0, project, true, false, true, true, "", []);
    var text := Strip(snippet);
    var found := if page.Some? then PageNumbered(d.pages, page.value) else None;
    [ Hurdle(doc.Some? && d.project == project, Refusal(404, "Document not found")),
      Hurdle(d.processed, Refusal(400, "Document is not fully processed")),
      Hurdle(d.knowledgeBase ==> d.approved, Refusal(400, "Document is not approved for use as evidence")),
      Hurdle(d.ingested, Refusal(400, "Document has not completed security processing")),
      Hurdle(|text| >= 10, Refusal(422, "Evidence snippet is too short")),
      Hurdle(|text| <= 2000, Refusal(422, "Evidence snippet is too long")),
      Hurdle(page.Some? ==> found.Some?, Refusal(400, "Page number does not exist for this document")),
      Hurdle(found.Some? ==> QuoteExists(fold, text, found.value.content),
             Refusal(400, "Evidence snippet not found on the specified page")),
      Hurdle(page.None? ==> d.content != "",
             Refusal(400, "Document has no extracted text content; provide a page number")),
      Hurdle(page.None? ==> QuoteExists(fold, text, d.content),
             Refusal(400, "Evidence snippet not found in document content"))]
  }

  lemma EvidenceMissing(fold: char -> string, doc: Option<Document>, project: Uuid, page: Option<int>,
                        snippet: string, k: nat)
    requires FirstMissed(EvidenceHurdles(fold, doc, project, page, snippet), k)
    ensures Validate(fold, doc, project, page, snippet)
            == Err(EvidenceHurdles(fold, doc, project, page, snippet)[k].code)
  {
    var h := EvidenceHurdles(fold, doc, project, page, snippet);
    assert (k > 0 ==> h[0].cleared) && (k > 1 ==> h[1].cleared) && (k > 2 ==> h[2].cleared);
    assert (k > 3 ==> h[3].cleared) && (k > 4 ==> h[4].cleared) && (k > 5 ==> h[5].cleared);
    assert (k > 6 ==> h[6].cleared) && (k > 7 ==> h[7].cleared) && (k > 8 ==> h[8].cleared);
  }

  lemma EvidenceComplete(fold: char -> string, doc: Option<Document>, project: Uuid, page: Option<int>,
                         snippet: string)
    requires AllCleared(EvidenceHurdles(fold, doc, project, page, snippet))
    ensures Validate(fold, doc, project, page, snippet) == Ok(Canonical(Strip(snippet), page))
  {
    var h := EvidenceHurdles(fold, doc, project, page, snippet);
    assert h[0].cleared && h[1].cleared && h[2].cleared && h[3].cleared && h[4].cleared;
    assert h[5].cleared && h[6].cleared && h[7].cleared && h[8].cleared && h[9].cleared;
  }

  /** Evidence is accepted, trimmed, exactly if it gets past every hurdle; else the first it misses is the refusal. */
  lemma ValidatesExactlyWhen(fold: char -> string, doc: Option<Document>, project: Uuid, page: Option<int>,
                             snippet: string)
    ensures var h, result := EvidenceHurdles(fold, doc, project, page, snippet),
                             Validate(fold, doc, project, page, snippet);
            && (result.Ok? <==> AllCleared(h))
            && (result.Ok? ==> result.value == Canonical(Strip(snippet), page))
            && (forall k: nat :: FirstMissed(h, k) ==> result == Err(h[k].code))
  {
    if AllCleared(EvidenceHurdles(fold, doc, project, page, snippet)) {
      EvidenceComplete(fold, doc, project, page, snippet);
    } else {
      var k := SomeIsFirstMissed(EvidenceHurdles(fold, doc, project, page, snippet));
      EvidenceMissing(fold, doc, project, page, snippet, k);
    }
  }

  /** What is offered of a page: its trimmed text, or the first 2000 characters of it. */
  predicate IsOfferOf(row: Row, offer: Offer) {
    && offer.doc == row.doc.id && offer.page == row.page.number
    && offer.snippet <= Strip(row.page.content) && |offer.snippet| <= 2000
    && (|offer.snippet| < |Strip(row.page.content)| ==> |offer.snippet| == 2000)
  }

  ghost predicate OffersFrom(rows: seq<Row>, offers: seq<Offer>, at: seq<nat>) {
    && |at| == |offers| && (forall j, k :: 0 <= j < k < |at| ==> at[j] < at[k])
    && (forall k :: 0 <= k < |at| ==> at[k] < |rows| && IsOfferOf(rows[at[k]], offers[k]))
    && (forall i :: 0 <= i < |rows| ==> (i in at <==> |Strip(rows[i].page.content)| >= 10))
  }

  lemma OneMoreOffer(rows: seq<Row>, row: Row, offers: seq<Offer>, at: seq<nat>)
    requires OffersFrom(rows, offers, at) && LongEnough(row)
    ensures OffersFrom(rows + [row], offers + [OfferOf(row)], at + [|rows|])
  {
    var all, more := rows + [row], at + [|rows|];
    forall i | 0 <= i < |all| ensures i in more <==> |Strip(all[i].page.content)| >= 10 {
      if i < |rows| {
        assert all[i] == rows[i];
        assert i in more <==> i in at;
      } else {
        assert more[|at|] == i;
      }
    }
  }

  lemma NoMoreOffers(rows: seq<Row>, row: Row, offers: seq<Offer>, at: seq<nat>)
    requires OffersFrom(rows, offers, at) && !LongEnough(row)
    ensures OffersFrom(rows + [row], offers, at)
  {
    var all := rows + [row];
    forall i | 0 <= i < |all| ensures i in at <==> |Strip(all[i].page.content)| >= 10 {
      if i < |rows| {
        assert all[i] == rows[i];
      } else {
        assert i !in at;
      }
    }
  }

  /** One offer, in order, for each row whose trimmed text has at least ten characters. */
  lemma {:induction false} OffersAreTheLongPages(rows: seq<Row>) returns (at: seq<nat>)
    ensures OffersFrom(rows, Offers(rows), at)
    decreases |rows|
  {
    if rows == [] {
      at := [];
    } else {
      var n := |rows| - 1;
      at := OffersAreTheLongPages(rows[..n]);
      assert rows[..n] + [rows[n]] == rows;
      if LongEnough(rows[n]) {
        OneMoreOffer(rows[..n], rows[n], Offers(rows[..n]), at);
        at := at + [n];
      } else {
        NoMoreOffers(rows[..n], rows[n], Offers(rows[..n]), at);
      }
    }
  }
}
