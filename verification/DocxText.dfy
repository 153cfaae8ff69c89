/**
 * What the extractor keeps of a document: every paragraph and every table cell that is not blank, in
 * order, with nothing between them but the separators.
 */
module DocxText {
  import opened Basics
  import opened PythonText
  import opened DocxChunking

  datatype Span = Span(from: nat, to: nat)

  ghost predicate Within(span: Span, text: string) {
    span.from <= span.to <= |text|
  }

  /** The spans follow each other through the whole text, with the separator and nothing else between two of them. */
  ghost predicate Laid(separator: string, text: string, spans: seq<Span>) {
    && (spans == [] ==> text == "")
    && (forall k :: 0 <= k < |spans| ==> Within(spans[k], text))
    && (spans != [] ==> spans[0].from == 0 && spans[|spans| - 1].to == |text|)
    && forall k, next :: 0 <= k && next == k + 1 < |spans| ==>
          spans[k].to <= spans[next].from && text[spans[k].to..spans[next].from] == separator
  }

  function Slice(text: string, span: Span): string
    requires Within(span, text)
  {
    text[span.from..span.to]
  }

  function Shifted(spans: seq<Span>, shift: nat): seq<Span> {
    seq(|spans|, k requires 0 <= k < |spans| => Span(spans[k].from + shift, spans[k].to + shift))
  }

  lemma ShiftedSlices(head: string, text: string, a: nat, b: nat)
    requires a <= b <= |text|
    ensures (head + text)[a + |head|..b + |head|] == text[a..b]
  {
  }

  lemma LaidAfter(separator: string, first: string, rest: string, spans: seq<Span>)
    requires Laid(separator, rest, spans) && spans != []
    ensures Laid(separator, first + separator + rest, [Span(0, |first|)] + Shifted(spans, |first + separator|))
  {
    var head, all := first + separator, [Span(0, |first|)] + Shifted(spans, |first + separator|);
    var text := head + rest;
    forall k, next | 0 <= k && next == k + 1 < |all|
      ensures all[k].to <= all[next].from && text[all[k].to..all[next].from] == separator
    {
      if k > 0 {
        assert spans[k - 1].to <= spans[next - 1].from;
        ShiftedSlices(head, rest, spans[k - 1].to, spans[next - 1].from);
      }
    }
  }

  /** The spans hold the parts, in the text they are joined to. */
  ghost predicate Holds(separator: string, parts: seq<string>, text: string, spans: seq<Span>) {
    && |spans| == |parts| && Laid(separator, text, spans)
    && forall k :: 0 <= k < |parts| ==> Slice(text, spans[k]) == parts[k]
  }

  lemma HoldsAfter(separator: string, first: string, parts: seq<string>, rest: string, spans: seq<Span>)
    requires Holds(separator, parts, rest, spans) && parts != []
    ensures Holds(separator, [first] + parts, first + separator + rest,
                  [Span(0, |first|)] + Shifted(spans, |first + separator|))
  {
    LaidAfter(separator, first, rest, spans);
    forall k | 0 <= k < |parts|
      ensures Slice(first + separator + rest, Shifted(spans, |first + separator|)[k]) == parts[k]
    {
      ShiftedSlices(first + separator, rest, spans[k].from, spans[k].to);
    }
  }

  lemma {:induction false} JoinLays(separator: string, parts: seq<string>) returns (spans: seq<Span>)
    ensures Holds(separator, parts, Join(separator, parts), spans)
  {
    if |parts| <= 1 {
      spans := if parts == [] then [] else [Span(0, |parts[0]|)];
    } else {
      var rest := JoinLays(separator, parts[1..]);
      HoldsAfter(separator, parts[0], parts[1..], Join(separator, parts[1..]), rest);
      spans := [Span(0, |parts[0]|)] + Shifted(rest, |parts[0] + separator|);
      assert [parts[0]] + parts[1..] == parts;
    }
  }

  ghost predicate Increasing(at: seq<nat>) {
    forall j, k :: 0 <= j < k < |at| ==> at[j] < at[k]
  }

  /** Each kept part is the one at its position, in order, and not empty. */
  ghost predicate ComesFrom(parts: seq<string>, kept: seq<string>, at: seq<nat>) {
    && |at| == |kept| && Increasing(at)
    && forall k :: 0 <= k < |at| ==> at[k] < |parts| && kept[k] == parts[at[k]] && parts[at[k]] != ""
  }

  ghost predicate NoneMissed(parts: seq<string>, at: seq<nat>) {
    forall i :: 0 <= i < |parts| && parts[i] != "" ==> i in at
  }

  ghost predicate Keeps(parts: seq<string>, kept: seq<string>, at: seq<nat>) {
    ComesFrom(parts, kept, at) && NoneMissed(parts, at)
  }

  function Later(at: seq<nat>): seq<nat> {
    seq(|at|, k requires 0 <= k < |at| => at[k] + 1)
  }

  lemma LaterComesFrom(first: string, parts: seq<string>, kept: seq<string>, at: seq<nat>)
    requires ComesFrom(parts, kept, at)
    ensures ComesFrom([first] + parts, kept, Later(at))
    ensures first != "" ==> ComesFrom([first] + parts, [first] + kept, [0] + Later(at))
  {
  }

  lemma LaterMissesNone(first: string, parts: seq<string>, at: seq<nat>, i: nat)
    requires NoneMissed(parts, at) && 0 < i <= |parts| && parts[i - 1] != ""
    ensures i in Later(at)
  {
    var k :| 0 <= k < |at| && at[k] == i - 1;
    assert Later(at)[k] == i;
  }

  lemma NoneMissedAfter(first: string, parts: seq<string>, at: seq<nat>)
    requires NoneMissed(parts, at)
    ensures NoneMissed([first] + parts, if first == "" then Later(at) else [0] + Later(at))
  {
    var all := [first] + parts;
    forall i | 0 < i < |all| && all[i] != "" ensures i in Later(at) {
      LaterMissesNone(first, parts, at, i);
    }
  }

  lemma KeepsAfter(first: string, parts: seq<string>, kept: seq<string>, at: seq<nat>)
    requires Keeps(parts, kept, at)
    ensures first == "" ==> Keeps([first] + parts, kept, Later(at))
    ensures first != "" ==> Keeps([first] + parts, [first] + kept, [0] + Later(at))
  {
    LaterComesFrom(first, parts, kept, at);
    NoneMissedAfter(first, parts, at);
  }

  lemma NonEmptyUnfolds(first: string, parts: seq<string>)
    ensures NonEmpty([first] + parts) == if first == "" then NonEmpty(parts) else [first] + NonEmpty(parts)
  {
    assert ([first] + parts)[1..] == parts;
  }

  lemma {:induction false} NonEmptyKeeps(parts: seq<string>) returns (at: seq<nat>)
    ensures Keeps(parts, NonEmpty(parts), at)
    decreases |parts|
  {
    if parts == [] {
      at := [];
    } else {
      var first, rest := parts[0], parts[1..];
      var later := NonEmptyKeeps(rest);
      KeepsAfter(first, rest, NonEmpty(rest), later);
      NonEmptyUnfolds(first, rest);
      assert parts == [first] + rest;
      at := if first == "" then Later(later) else [0] + Later(later);
    }
  }

  /** The text without the white space around it, and not empty. */
  ghost predicate IsCore(raw: string, core: string) {
    core != "" && Trimmed(core)
    && exists i, j :: 0 <= i <= j <= |raw| && raw[i..j] == core && Blank(raw[..i]) && Blank(raw[j..])
  }

  lemma StripIsTheCore(raw: string)
    requires !Blank(raw)
    ensures IsCore(raw, Strip(raw))
  {
    var i, j := StripIsTheMiddle(raw);
    StripIsEmptyForBlanks(raw);
    assert raw[i..j] == Strip(raw);
  }

  /** The cells kept of a row are those that are not blank, laid out in column order. */
  ghost predicate RowLaid(cells: seq<string>, text: string, at: seq<nat>, spans: seq<Span>) {
    && |at| == |spans| && Increasing(at) && (forall k :: 0 <= k < |at| ==> at[k] < |cells|)
    && (forall c :: 0 <= c < |cells| ==> (c in at <==> !Blank(cells[c])))
    && Laid(" | ", text, spans)
    && forall k :: 0 <= k < |at| ==> IsCore(cells[at[k]], Slice(text, spans[k]))
  }

  lemma RowKeepsItsCells(cells: seq<string>) returns (at: seq<nat>, spans: seq<Span>)
    ensures RowLaid(cells, Join(" | ", NonEmpty(StripAll(cells))), at, spans)
  {
    var parts := StripAll(cells);
    at := NonEmptyKeeps(parts);
    spans := JoinLays(" | ", NonEmpty(parts));
    forall c | 0 <= c < |cells| ensures c in at <==> !Blank(cells[c]) {
      StripIsEmptyForBlanks(cells[c]);
      assert parts[c] == Strip(cells[c]);
    }
    forall k | 0 <= k < |at|
      ensures IsCore(cells[at[k]], Slice(Join(" | ", NonEmpty(parts)), spans[k]))
    {
      assert at[k] in at;
      StripIsTheCore(cells[at[k]]);
    }
  }

  ghost predicate HasText(cells: seq<string>) {
    exists c :: 0 <= c < |cells| && !Blank(cells[c])
  }

  ghost predicate IsRow(cells: seq<string>, text: string) {
    exists at, spans :: RowLaid(cells, text, at, spans)
  }

  lemma RowIsEmptyWithoutText(cells: seq<string>)
    ensures IsRow(cells, Join(" | ", NonEmpty(StripAll(cells))))
    ensures Join(" | ", NonEmpty(StripAll(cells))) != "" <==> HasText(cells)
  {
    var text := Join(" | ", NonEmpty(StripAll(cells)));
    var at, spans := RowKeepsItsCells(cells);
    assert at != [] ==> at[0] in at && at[0] < |cells|;
    if HasText(cells) {
      var c :| 0 <= c < |cells| && !Blank(cells[c]);
      assert c in at;
      assert IsCore(cells[at[0]], Slice(text, spans[0]));
    }
  }

  /** The rows kept of a table are those with text, one a line. */
  ghost predicate TableLaid(rows: seq<seq<string>>, text: string, at: seq<nat>, spans: seq<Span>) {
    && |at| == |spans| && Increasing(at) && (forall k :: 0 <= k < |at| ==> at[k] < |rows|)
    && (forall r :: 0 <= r < |rows| ==> (r in at <==> HasText(rows[r])))
    && Laid("\n", text, spans)
    && forall k :: 0 <= k < |at| ==> IsRow(rows[at[k]], Slice(text, spans[k])) && spans[k].from < spans[k].to
  }

  lemma TableFromItsRows(rows: seq<seq<string>>, parts: seq<string>, kept: seq<string>, text: string, at: seq<nat>,
                         spans: seq<Span>)
    requires |parts| == |rows| && Keeps(parts, kept, at) && Holds("\n", kept, text, spans)
    requires forall r :: 0 <= r < |rows| ==> IsRow(rows[r], parts[r]) && (parts[r] != "" <==> HasText(rows[r]))
    ensures TableLaid(rows, text, at, spans)
  {
    forall r | 0 <= r < |rows| ensures r in at <==> HasText(rows[r]) {
      assert r in at ==> parts[r] != "";
    }
  }

  lemma TableKeepsItsRows(rows: seq<seq<string>>) returns (at: seq<nat>, spans: seq<Span>)
    ensures TableLaid(rows, Join("\n", NonEmpty(RowTexts(rows))), at, spans)
  {
    var parts := RowTexts(rows);
    at := NonEmptyKeeps(parts);
    spans := JoinLays("\n", NonEmpty(parts));
    forall r | 0 <= r < |rows| ensures IsRow(rows[r], parts[r]) && (parts[r] != "" <==> HasText(rows[r])) {
      RowIsEmptyWithoutText(rows[r]);
    }
    TableFromItsRows(rows, parts, NonEmpty(parts), Join("\n", NonEmpty(parts)), at, spans);
  }

  /** The block has something to extract: a paragraph, or some cell of a table, that is not blank. */
  ghost predicate Speaks(b: Block) {
    match b
    case Paragraph(text) => !Blank(text)
    case Table(rows) => exists r :: 0 <= r < |rows| && HasText(rows[r])
  }

  /** What is extracted of a block that speaks. */
  ghost predicate Says(b: Block, text: string) {
    match b
    case Paragraph(raw) => IsCore(raw, text)
    case Table(rows) => exists at, spans :: TableLaid(rows, text, at, spans)
  }

  lemma ABlockSaysItsText(b: Block)
    ensures TextOf(b) != "" <==> Speaks(b)
    ensures Speaks(b) ==> Says(b, TextOf(b))
  {
    match b
    case Paragraph(raw) =>
      StripIsEmptyForBlanks(raw);
      if !Blank(raw) {
        StripIsTheCore(raw);
      }
    case Table(rows) =>
      var at, spans := TableKeepsItsRows(rows);
      assert at != [] ==> at[0] in at && at[0] < |rows|;
      if r :| 0 <= r < |rows| && HasText(rows[r]) {
        assert r in at;
        assert spans[0].from < spans[0].to;
      }
  }

  /**
   * The extracted blocks are, one for one and in order, the blocks of the body that hold a paragraph or a
   * cell that is not blank; each is that paragraph, or those cells, without the white space around them.
   */
  lemma TextsKeepTheBody(body: seq<Block>) returns (at: seq<nat>)
    ensures |at| == |Texts(body)| && Increasing(at) && forall k :: 0 <= k < |at| ==> at[k] < |body|
    ensures forall i :: 0 <= i < |body| ==> (i in at <==> Speaks(body[i]))
    ensures forall k :: 0 <= k < |at| ==> Says(body[at[k]], Texts(body)[k])
  {
    var parts := seq(|body|, i requires 0 <= i < |body| => TextOf(body[i]));
    at := NonEmptyKeeps(parts);
    forall i | 0 <= i < |body|
      ensures (i in at <==> Speaks(body[i])) && (Speaks(body[i]) ==> Says(body[i], parts[i]))
    {
      ABlockSaysItsText(body[i]);
      assert parts[i] == TextOf(body[i]);
    }
    forall k | 0 <= k < |at| ensures Says(body[at[k]], Texts(body)[k]) {
      assert at[k] in at;
    }
  }

  function Chunk(group: seq<string>): string {
    Join("\n\n", group)
  }

  lemma {:induction false} EveryBlockHasAGroup(groups: seq<seq<string>>, k: nat) returns (g: nat, n: nat)
    requires k < |Flatten(groups)|
    ensures g < |groups| && n < |groups[g]| && groups[g][n] == Flatten(groups)[k]
  {
    if k < |groups[0]| {
      g, n := 0, k;
    } else {
      g, n := EveryBlockHasAGroup(groups[1..], k - |groups[0]|);
      g := g + 1;
    }
  }

  /** The blocks of the group with a blank line between two of them, and nothing else. */
  ghost predicate IsChunk(group: seq<string>, text: string) {
    exists spans :: Holds("\n\n", group, text, spans)
  }

  ghost predicate SaidIn(b: Block, chunk: string) {
    exists span :: Within(span, chunk) && Says(b, Slice(chunk, span))
  }

  /**
   * Nothing a document says is lost in its chunks: each chunk is its group's blocks with a blank line
   * between two, and every block of the body that speaks is said in one of them.
   */
  lemma ChunksSayTheBody(body: seq<Block>, groups: seq<seq<string>>)
    requires Grouping(groups, Texts(body))
    ensures forall i :: 0 <= i < |body| && Speaks(body[i]) ==>
                          exists g :: 0 <= g < |groups| && SaidIn(body[i], Chunk(groups[g]))
    ensures forall g :: 0 <= g < |groups| ==> IsChunk(groups[g], Chunk(groups[g]))
  {
    var at := TextsKeepTheBody(body);
    forall i | 0 <= i < |body| && Speaks(body[i])
      ensures exists g :: 0 <= g < |groups| && SaidIn(body[i], Chunk(groups[g]))
    {
      var k :| 0 <= k < |at| && at[k] == i;
      var g, n := EveryBlockHasAGroup(groups, k);
      var spans := JoinLays("\n\n", groups[g]);
      assert Says(body[i], Slice(Chunk(groups[g]), spans[n]));
      assert SaidIn(body[i], Chunk(groups[g]));
    }
    forall g | 0 <= g < |groups| ensures IsChunk(groups[g], Chunk(groups[g])) {
      var spans := JoinLays("\n\n", groups[g]);
    }
  }
}
