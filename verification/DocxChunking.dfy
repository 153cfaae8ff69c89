/** How the DOCX extractor groups blocks of text into chunks, and the limits it puts on what it emits. */
module DocxChunking {
  import opened Basics
  import opened PythonText
  import opened SnapshotEncoding
  import Parse = DocumentParsing

  const CHUNK_TARGET := 4000
  const MAX_CHARS_PER_UNIT := 100_000

  datatype Block = Paragraph(text: string) | Table(rows: seq<seq<string>>)

  function Join(separator: string, parts: seq<string>): string {
    if parts == [] then "" else if |parts| == 1 then parts[0] else parts[0] + separator + Join(separator, parts[1..])
  }

  function NonEmpty(parts: seq<string>): (r: seq<string>)
    ensures forall i :: 0 <= i < |r| ==> r[i] != ""
  {
    if parts == [] then [] else (if parts[0] == "" then [] else [parts[0]]) + NonEmpty(parts[1..])
  }

  function StripAll(cells: seq<string>): seq<string> {
    seq(|cells|, i requires 0 <= i < |cells| => Strip(cells[i]))
  }

  function RowTexts(rows: seq<seq<string>>): seq<string> {
    seq(|rows|, i requires 0 <= i < |rows| => Join(" | ", NonEmpty(StripAll(rows[i]))))
  }

  function TextOf(b: Block): string {
    match b
    case Paragraph(text) => Strip(text)
    case Table(rows) => Join("\n", NonEmpty(RowTexts(rows)))
  }

  function Texts(body: seq<Block>): seq<string> {
    NonEmpty(seq(|body|, i requires 0 <= i < |body| => TextOf(body[i])))
  }

  /** Characters in a run of blocks; separators are not counted. */
  function Length(blocks: seq<string>): nat {
    if blocks == [] then 0 else |blocks[0]| + Length(blocks[1..])
  }

  function Flatten(groups: seq<seq<string>>): seq<string> {
    if groups == [] then [] else groups[0] + Flatten(groups[1..])
  }

  ghost predicate NoEmpty(blocks: seq<string>) {
    forall i :: 0 <= i < |blocks| ==> blocks[i] != ""
  }

  /** Only a block that is too long by itself may pass the target. */
  predicate Fits(group: seq<string>) {
    group != [] && (|group| == 1 || Length(group) <= CHUNK_TARGET)
  }

  ghost predicate Grouping(groups: seq<seq<string>>, blocks: seq<string>) {
    Flatten(groups) == blocks && forall i :: 0 <= i < |groups| ==> Fits(groups[i])
  }

  predicate Overflows(group: seq<string>, next: seq<string>) {
    next != [] && Length(group) + |next[0]| > CHUNK_TARGET
  }

  /** No group had room for the block that starts the next one. */
  ghost predicate Greedy(groups: seq<seq<string>>) {
    forall i, j :: 0 <= i && j == i + 1 < |groups| ==> Overflows(groups[i], groups[j])
  }

  lemma {:induction false} LengthAppends(a: seq<string>, b: seq<string>)
    ensures Length(a + b) == Length(a) + Length(b)
  {
    if a == [] {
      assert a + b == b;
    } else {
      LengthAppends(a[1..], b);
      assert (a + b)[1..] == a[1..] + b;
    }
  }

  lemma {:induction false} FlattenAppends(a: seq<seq<string>>, b: seq<seq<string>>)
    ensures Flatten(a + b) == Flatten(a) + Flatten(b)
  {
    if a == [] {
      assert a + b == b;
    } else {
      FlattenAppends(a[1..], b);
      assert (a + b)[1..] == a[1..] + b;
    }
  }

  lemma FlattenOne(group: seq<string>)
    ensures Flatten([group]) == group
  {
    assert [group][1..] == [];
  }

  lemma LengthOfOne(block: string)
    ensures Length([block]) == |block|
  {
    assert [block][1..] == [];
  }

  /** After i blocks: finished groups, and a current one that is empty only at the start. */
  ghost predicate Grouped(blocks: seq<string>, i: nat, groups: seq<seq<string>>, current: seq<string>)
    requires i <= |blocks|
  {
    && Flatten(groups) + current == blocks[..i]
    && (current == [] <==> i == 0) && (current == [] ==> groups == [])
    && (current != [] ==> Fits(current) && Greedy(groups + [current]))
    && forall k :: 0 <= k < |groups| ==> Fits(groups[k])
  }

  lemma StartingAGroup(blocks: seq<string>, i: nat, groups: seq<seq<string>>, current: seq<string>)
    requires i < |blocks| && Grouped(blocks, i, groups, current) && current != []
    requires Length(current) + |blocks[i]| > CHUNK_TARGET
    ensures Grouped(blocks, i + 1, groups + [current], [blocks[i]])
  {
    FlattenAppends(groups, [current]);
    FlattenOne(current);
    assert Overflows(current, [blocks[i]]);
  }

  lemma ExtendingTheGroup(blocks: seq<string>, i: nat, groups: seq<seq<string>>, current: seq<string>)
    requires i < |blocks| && Grouped(blocks, i, groups, current)
    requires current == [] || Length(current) + |blocks[i]| <= CHUNK_TARGET
    ensures Grouped(blocks, i + 1, groups, current + [blocks[i]])
  {
    LengthAppends(current, [blocks[i]]);
    LengthOfOne(blocks[i]);
    var longer := groups + [current + [blocks[i]]];
    forall k, j | 0 <= k && j == k + 1 < |longer| ensures Overflows(longer[k], longer[j]) {
      assert Overflows((groups + [current])[k], (groups + [current])[j]);
    }
  }

  lemma FinishingTheGroups(blocks: seq<string>, groups: seq<seq<string>>, current: seq<string>)
    requires Grouped(blocks, |blocks|, groups, current)
    ensures var all := if current == [] then groups else groups + [current]; Grouping(all, blocks) && Greedy(all)
  {
    FlattenAppends(groups, [current]);
    FlattenOne(current);
    assert blocks[..|blocks|] == blocks;
  }

  lemma LengthIsPositive(blocks: seq<string>)
    requires NoEmpty(blocks)
    ensures Length(blocks) == 0 <==> blocks == []
  {
  }

  /** The loop of the extractor; the chunk texts are the groups joined by blank lines. */
  method Group(blocks: seq<string>) returns (groups: seq<seq<string>>)
    requires NoEmpty(blocks)
    ensures Grouping(groups, blocks) && Greedy(groups)
  {
    groups := [];
    var current: seq<string> := [];
    var currentLength := 0;
    for i := 0 to |blocks|
      invariant Grouped(blocks, i, groups, current) && NoEmpty(current)
      invariant currentLength == Length(current)
    {
      LengthIsPositive(current);
      LengthOfOne(blocks[i]);
      LengthAppends(current, [blocks[i]]);
      if currentLength > 0 && currentLength + |blocks[i]| > CHUNK_TARGET {
        StartingAGroup(blocks, i, groups, current);
        groups := groups + [current];
        current := [blocks[i]];
        currentLength := |blocks[i]|;
      } else {
        ExtendingTheGroup(blocks, i, groups, current);
        current := current + [blocks[i]];
        currentLength := currentLength + |blocks[i]|;
      }
    }
    FinishingTheGroups(blocks, groups, current);
    if current != [] {
      groups := groups + [current];
    }
  }

  // Greedy is optimal.

  lemma ALongGroupIsTooLong(group: seq<string>, skipped: seq<string>, first: seq<string>, next: string,
                            rest: seq<string>)
    requires group == skipped + first + [next] + rest && first != [] && Length(first) + |next| > CHUNK_TARGET
    ensures !Fits(group)
  {
    LengthAppends(skipped + first + [next], rest);
    LengthAppends(skipped + first, [next]);
    LengthAppends(skipped, first);
    LengthOfOne(next);
  }

  lemma CutPastTheFirst(whole: seq<string>, lead: seq<string>, first: seq<string>, rest: seq<string>, k: nat)
    requires whole == lead + first + rest && |lead| + |first| < k <= |whole|
    ensures whole[..k] == lead + first + [rest[0]] + rest[1..k - |lead| - |first|]
  {
  }

  /** A group that reaches past the end of a greedy one holds it and the block greedy had no room for. */
  lemma ReachingPastGreedyDoesNotFit(whole: seq<string>, lead: seq<string>, group: seq<string>, next: seq<string>,
                                     rest: seq<string>, k: nat)
    requires whole == lead + group + (next + rest) && group != [] && Overflows(group, next)
    requires |lead| + |group| < k <= |whole|
    ensures !Fits(whole[..k])
  {
    CutPastTheFirst(whole, lead, group, next + rest, k);
    ALongGroupIsTooLong(whole[..k], lead, group, next[0], (next + rest)[1..k - |lead| - |group|]);
  }

  lemma SameSuffix(x: seq<string>, long: seq<string>, y: seq<string>, short: seq<string>)
    requires x + long == y + short && |short| <= |long|
    ensures long == long[..|long| - |short|] + short
  {
    assert (x + long)[|x| + |long| - |short|..] == (y + short)[|y|..];
  }

  /** One step of staying ahead: what greedy has left is never more than what another grouping has left. */
  lemma GreedyStaysAhead(groups: seq<seq<string>>, other: seq<seq<string>>, lead: seq<string>)
    returns (ahead: seq<string>)
    requires groups != [] && other != [] && Greedy(groups) && Fits(groups[0]) && Fits(other[0])
    requires Flatten(other) == lead + Flatten(groups)
    ensures Flatten(other[1..]) == ahead + Flatten(groups[1..])
  {
    var mine, theirs := Flatten(groups[1..]), Flatten(other[1..]);
    var k := |other[0]|;
    assert Flatten(other) == other[0] + theirs;
    assert Flatten(other)[..k] == other[0];
    if |groups| > 1 {
      assert mine == groups[1] + Flatten(groups[1..][1..]);
      assert Overflows(groups[0], groups[1]);
      assert Flatten(other) == lead + groups[0] + mine;
      if k > |lead| + |groups[0]| {
        ReachingPastGreedyDoesNotFit(Flatten(other), lead, groups[0], groups[1], Flatten(groups[1..][1..]), k);
      }
    }
    assert |mine| <= |theirs|;
    ahead := theirs[..|theirs| - |mine|];
    SameSuffix(other[0], theirs, lead + groups[0], mine);
  }

  lemma {:induction false} GreedyNeedsNoMore(groups: seq<seq<string>>, other: seq<seq<string>>, lead: seq<string>)
    requires Greedy(groups) && (forall i :: 0 <= i < |groups| ==> Fits(groups[i]))
    requires (forall i :: 0 <= i < |other| ==> Fits(other[i]))
    requires Flatten(other) == lead + Flatten(groups)
    ensures |groups| <= |other|
    decreases |groups|
  {
    if groups != [] {
      assert Flatten(groups) == groups[0] + Flatten(groups[1..]);
      var ahead := GreedyStaysAhead(groups, other, lead);
      GreedyTail(groups);
      GreedyNeedsNoMore(groups[1..], other[1..], ahead);
    }
  }

  lemma GreedyTail(groups: seq<seq<string>>)
    requires Greedy(groups) && groups != []
    ensures Greedy(groups[1..])
  {
    forall i, j | 0 <= i && j == i + 1 < |groups[1..]| ensures Overflows(groups[1..][i], groups[1..][j]) {
      assert Overflows(groups[i + 1], groups[j + 1]);
    }
  }

  /** No other order-preserving grouping within the target has fewer chunks. */
  lemma GreedyIsMinimal(blocks: seq<string>, groups: seq<seq<string>>, other: seq<seq<string>>)
    requires Grouping(groups, blocks) && Greedy(groups) && Grouping(other, blocks)
    ensures |groups| <= |other|
  {
    assert [] + Flatten(groups) == Flatten(other);
    GreedyNeedsNoMore(groups, other, []);
  }

  lemma LengthCoversItsFirst(group: seq<string>)
    requires group != []
    ensures Length(group) >= |group[0]|
  {
  }

  /** Two neighbouring chunks together pass the target, which bounds their number by the length of the text. */
  lemma {:induction false} ChunkCountIsBounded(groups: seq<seq<string>>)
    requires Greedy(groups)
    ensures |groups| / 2 * (CHUNK_TARGET + 1) <= Length(Flatten(groups))
    decreases |groups|
  {
    if |groups| >= 2 {
      var rest := groups[2..];
      forall i, j | 0 <= i && j == i + 1 < |rest| ensures Overflows(rest[i], rest[j]) {
        assert Overflows(groups[i + 2], groups[j + 2]);
      }
      ChunkCountIsBounded(rest);
      assert Overflows(groups[0], groups[1]);
      LengthCoversItsFirst(groups[1]);
      assert groups[1..][1..] == rest;
      assert Flatten(groups) == groups[0] + (groups[1] + Flatten(rest));
      LengthAppends(groups[0], groups[1] + Flatten(rest));
      LengthAppends(groups[1], Flatten(rest));
      assert |groups| / 2 == |rest| / 2 + 1;
    }
  }

  /** Up to a million characters the chunk limit cannot be reached, however the text is cut into blocks. */
  lemma ShortTextsStayWithinTheUnitLimit(groups: seq<seq<string>>)
    requires Greedy(groups) && Length(Flatten(groups)) <= Parse.MAX_UNITS / 2 * CHUNK_TARGET
    ensures |groups| <= Parse.MAX_UNITS
  {
    ChunkCountIsBounded(groups);
  }

  // What is emitted.

  datatype Extraction = Extraction(units: seq<Parse.Unit>, count: nat, total: nat)

  datatype Text = Text(normalize: string -> string, hash: string -> Digest)

  function Content(t: Text, chunk: string): string {
    var text := t.normalize(chunk);
    text[..Min(|text|, MAX_CHARS_PER_UNIT)]
  }

  function UnitOf(t: Text, chunk: string, number: nat): Parse.Unit {
    var content := Content(t, chunk);
    Parse.Unit(number, "DOCX_LOGICAL_CHUNK", "chunk_" + Decimal(number), content, t.hash(content))
  }

  function Emitted(t: Text, chunks: seq<string>): nat {
    if chunks == [] then 0 else |Content(t, chunks[0])| + Emitted(t, chunks[1..])
  }

  lemma {:induction false} EmittedUpTo(t: Text, chunks: seq<string>, i: nat)
    requires i < |chunks|
    ensures Emitted(t, chunks[..i + 1]) == Emitted(t, chunks[..i]) + |Content(t, chunks[i])|
    ensures Emitted(t, chunks[..i + 1]) <= Emitted(t, chunks)
  {
    if i > 0 {
      EmittedUpTo(t, chunks[1..], i - 1);
      assert chunks[..i][1..] == chunks[1..][..i - 1] && chunks[..i + 1][1..] == chunks[1..][..i];
    } else {
      assert chunks[..1][1..] == [];
    }
  }

  /**
   * Units number the chunks from 1, each cut to the unit limit; the text is refused exactly when it is
   * too long in all.
   */
  method EmitUnits(t: Text, chunks: seq<string>) returns (result: Result<Extraction, string>)
    ensures result.Err? <==> Emitted(t, chunks) > Parse.MAX_TOTAL_CHARS
    ensures result.Err? ==> result.error == "OUTPUT_LIMIT_EXCEEDED"
    ensures result.Ok? ==>
              && |result.value.units| == |chunks| == result.value.count && result.value.total == Emitted(t, chunks)
              && forall i :: 0 <= i < |chunks| ==> result.value.units[i] == UnitOf(t, chunks[i], i + 1)
  {
    var units: seq<Parse.Unit> := [];
    var total := 0;
    for i := 0 to |chunks|
      invariant |units| == i && forall k :: 0 <= k < i ==> units[k] == UnitOf(t, chunks[k], k + 1)
      invariant total == Emitted(t, chunks[..i]) <= Parse.MAX_TOTAL_CHARS
    {
      EmittedUpTo(t, chunks, i);
      var text := t.normalize(chunks[i]);
      if |text| > MAX_CHARS_PER_UNIT {
        text := text[..MAX_CHARS_PER_UNIT];
      }
      assert text == Content(t, chunks[i]);
      total := total + |text|;
      if total > Parse.MAX_TOTAL_CHARS {
        return Err("OUTPUT_LIMIT_EXCEEDED");
      }
      units := units + [Parse.Unit(i + 1, "DOCX_LOGICAL_CHUNK", "chunk_" + Decimal(i + 1), text, t.hash(text))];
    }
    assert chunks[..|chunks|] == chunks;
    return Ok(Extraction(units, |units|, total));
  }

  function JoinAll(groups: seq<seq<string>>): seq<string> {
    seq(|groups|, i requires 0 <= i < |groups| => Join("\n\n", groups[i]))
  }

  /** Units numbered 1..n under the locators chunk_1..chunk_n, within the total. */
  ghost predicate WellNumbered(x: Extraction) {
    && x.count == |x.units| <= Parse.MAX_UNITS && x.total <= Parse.MAX_TOTAL_CHARS
    && forall i :: 0 <= i < |x.units| ==>
          x.units[i].sequence == i + 1 && x.units[i].locator == "chunk_" + Decimal(i + 1)
  }

  /** `extract_docx_units` on the blocks of an opened document; an empty one yields one empty unit. */
  method ExtractUnits(t: Text, body: seq<Block>) returns (result: Result<Extraction, string>)
    ensures Texts(body) == [] ==>
              result == Ok(Extraction([Parse.Unit(1, "DOCX_LOGICAL_CHUNK", "chunk_1", "", t.hash(""))], 1, 0))
    ensures Texts(body) != [] ==>
              exists groups :: Grouping(groups, Texts(body)) && Greedy(groups)
                && if |groups| > Parse.MAX_UNITS then result == Err("CHUNK_LIMIT_EXCEEDED")
                   else if Emitted(t, JoinAll(groups)) > Parse.MAX_TOTAL_CHARS then
                     result == Err("OUTPUT_LIMIT_EXCEEDED")
                   else result.Ok? && |result.value.units| == |groups|
                        && forall i :: 0 <= i < |groups| ==>
                              result.value.units[i] == UnitOf(t, Join("\n\n", groups[i]), i + 1)
    ensures result.Ok? ==> WellNumbered(result.value)
  {
    var blocks := Texts(body);
    if blocks == [] {
      assert Decimal(1) == "1";
      return Ok(Extraction([Parse.Unit(1, "DOCX_LOGICAL_CHUNK", "chunk_1", "", t.hash(""))], 1, 0));
    }
    var groups := Group(blocks);
    if |groups| > Parse.MAX_UNITS {
      return Err("CHUNK_LIMIT_EXCEEDED");
    }
    result := EmitUnits(t, JoinAll(groups));
  }

  /** Everything the extractor emits is accepted by the validation on the other side of the service boundary. */
  lemma EmittedUnitsAreAcceptable(x: Extraction)
    requires WellNumbered(x)
    ensures Parse.Acceptable(Parse.Response(Parse.PROTOCOL_VERSION, Parse.PARSER_NAME, x.units, x.count, x.total))
  {
    forall i, j | 0 <= i < j < |x.units| ensures x.units[i].locator != x.units[j].locator {
      if x.units[i].locator == x.units[j].locator {
        assert x.units[i].locator[6..] == Decimal(i + 1) && x.units[j].locator[6..] == Decimal(j + 1);
        DecimalIsInjective(i + 1, j + 1);
      }
    }
  }

  /** A unit carries its number, and of the normalized chunk all that fits, with the digest of just that. */
  lemma UnitsCarryTheirChunk(t: Text, chunk: string, number: nat)
    ensures var u, whole := UnitOf(t, chunk, number), t.normalize(chunk);
            && u.sequence == number && u.kind == "DOCX_LOGICAL_CHUNK" && u.locator == "chunk_" + Decimal(number)
            && u.content <= whole && (if |whole| <= 100000 then u.content == whole else |u.content| == 100000)
            && u.contentDigest == t.hash(u.content)
  {
  }

  /** The total is the number of characters of all units. */
  lemma {:induction false} EmittedIsTheLength(t: Text, chunks: seq<string>)
    ensures Emitted(t, chunks) == |Concat(seq(|chunks|, i requires 0 <= i < |chunks| => Content(t, chunks[i])))|
  {
    if chunks != [] {
      var contents := seq(|chunks|, i requires 0 <= i < |chunks| => Content(t, chunks[i]));
      EmittedIsTheLength(t, chunks[1..]);
      assert contents[1..] == seq(|chunks[1..]|, i requires 0 <= i < |chunks[1..]| => Content(t, chunks[1..][i]));
    }
  }
}
