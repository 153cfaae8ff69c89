/**
 * The text a page snapshot is hashed over: one line a page, fields separated by pipes. The encoding
 * decides whether an unchanged digest proves unchanged pages.
 */
module SnapshotEncoding {
  import opened Basics

  datatype PageRow = PageRow(id: Uuid, number: int, kind: Option<string>, locator: Option<string>,
                             digest: Option<Digest>, content: string)

  /** What the encoding is meant to determine; a missing field and an empty one are the same to it. */
  datatype PageKey = PageKey(id: Uuid, number: int, kind: string, locator: string, digest: string)

  function OrEmpty(s: Option<string>): string {
    if s.Some? then s.value else ""
  }

  function Key(p: PageRow): PageKey {
    PageKey(p.id, p.number, OrEmpty(p.kind), OrEmpty(p.locator), OrEmpty(p.digest))
  }

  function Keys(pages: seq<PageRow>): seq<PageKey> {
    seq(|pages|, i requires 0 <= i < |pages| => Key(pages[i]))
  }

  /** SHA-256 over text and the text of a UUID. */
  datatype Rendering = Rendering(hash: string -> Digest, uuidText: Uuid -> string)

  predicate Plain(s: string) {
    '|' !in s && '\n' !in s
  }

  ghost predicate Faithful(r: Rendering) {
    && Injective(r.uuidText) && (forall id :: Plain(r.uuidText(id)))
    && (forall s :: Plain(r.hash(s)))
  }

  function Digit(d: nat): char
    requires d < 10
  {
    "0123456789"[d]
  }

  function Digits(n: nat): string {
    if n < 10 then [Digit(n)] else Digits(n / 10) + [Digit(n % 10)]
  }

  function Decimal(n: int): string {
    if n < 0 then "-" + Digits(-n) else Digits(n)
  }

  lemma {:induction false} DigitsArePlain(n: nat)
    ensures Plain(Digits(n)) && |Digits(n)| > 0 && Digits(n)[0] != '-'
  {
    if n >= 10 { DigitsArePlain(n / 10); }
  }

  lemma DigitsGrow(n: nat)
    ensures |Digits(n)| == 1 <==> n < 10
  {
    DigitsArePlain(n / 10);
  }

  lemma {:induction false} DigitsAreInjective(m: nat, n: nat)
    requires Digits(m) == Digits(n)
    ensures m == n
  {
    DigitsGrow(m);
    DigitsGrow(n);
    if m >= 10 {
      assert Digits(m)[..|Digits(m)| - 1] == Digits(m / 10) && Digits(n)[..|Digits(n)| - 1] == Digits(n / 10);
      DigitsAreInjective(m / 10, n / 10);
      assert Digits(m)[|Digits(m)| - 1] == Digit(m % 10) && Digits(n)[|Digits(n)| - 1] == Digit(n % 10);
    }
  }

  lemma SignShows(n: int)
    ensures Plain(Decimal(n)) && |Decimal(n)| > 0 && (Decimal(n)[0] == '-' <==> n < 0)
    ensures n < 0 ==> Decimal(n)[1..] == Digits(-n)
  {
    DigitsArePlain(if n < 0 then -n else n);
  }

  lemma DecimalIsInjective(m: int, n: int)
    requires Decimal(m) == Decimal(n)
    ensures m == n
  {
    SignShows(m);
    SignShows(n);
    if m < 0 {
      DigitsAreInjective(-m, -n);
    } else {
      DigitsAreInjective(m, n);
    }
  }

  function Line(r: Rendering, k: PageKey): string {
    r.uuidText(k.id) + "|" + Decimal(k.number) + "|" + k.kind + "|" + k.locator + "|" + k.digest + "\n"
  }

  function Encoding(r: Rendering, keys: seq<PageKey>): string {
    if keys == [] then "" else Line(r, keys[0]) + Encoding(r, keys[1..])
  }

  // `sorted(pages, key=page_number)`, which is stable.

  function InsertByNumber(p: PageRow, sorted: seq<PageRow>): seq<PageRow> {
    if sorted == [] || p.number <= sorted[0].number then [p] + sorted
    else [sorted[0]] + InsertByNumber(p, sorted[1..])
  }

  function SortByNumber(pages: seq<PageRow>): seq<PageRow> {
    if pages == [] then [] else InsertByNumber(pages[0], SortByNumber(pages[1..]))
  }

  ghost predicate Ordered(pages: seq<PageRow>) {
    forall i, j :: 0 <= i < j < |pages| ==> pages[i].number <= pages[j].number
  }

  /** Sorting does nothing to what the query already returns in page order. */
  lemma {:induction false} SortingOrderedPages(pages: seq<PageRow>)
    requires Ordered(pages)
    ensures SortByNumber(pages) == pages
  {
    if pages != [] {
      SortingOrderedPages(pages[1..]);
      assert [pages[0]] + pages[1..] == pages;
    }
  }

  lemma {:induction false} SortingOrders(pages: seq<PageRow>)
    ensures Ordered(SortByNumber(pages))
    ensures multiset(SortByNumber(pages)) == multiset(pages)
  {
    if pages != [] {
      SortingOrders(pages[1..]);
      InsertingKeepsOrder(pages[0], SortByNumber(pages[1..]));
      assert pages == [pages[0]] + pages[1..];
    }
  }

  lemma {:induction false} InsertedElements(p: PageRow, sorted: seq<PageRow>)
    ensures multiset(InsertByNumber(p, sorted)) == multiset(sorted) + multiset{p}
  {
    if sorted != [] && p.number > sorted[0].number {
      InsertedElements(p, sorted[1..]);
      assert sorted == [sorted[0]] + sorted[1..];
    }
  }

  lemma {:induction false} InsertingKeepsOrder(p: PageRow, sorted: seq<PageRow>)
    requires Ordered(sorted)
    ensures Ordered(InsertByNumber(p, sorted))
    ensures multiset(InsertByNumber(p, sorted)) == multiset(sorted) + multiset{p}
  {
    InsertedElements(p, sorted);
    if sorted != [] && p.number > sorted[0].number {
      var rest := InsertByNumber(p, sorted[1..]);
      InsertingKeepsOrder(p, sorted[1..]);
      forall q | q in rest ensures sorted[0].number <= q.number {
        assert q in multiset(rest);
      }
      LeastFirst(sorted[0], rest);
    }
  }

  lemma LeastFirst(p: PageRow, rest: seq<PageRow>)
    requires Ordered(rest) && forall q :: q in rest ==> p.number <= q.number
    ensures Ordered([p] + rest)
  {
  }

  lemma SortingTwice(pages: seq<PageRow>)
    ensures SortByNumber(SortByNumber(pages)) == SortByNumber(pages)
  {
    SortingOrders(pages);
    SortingOrderedPages(SortByNumber(pages));
  }

  function Snapshot(r: Rendering, pages: seq<PageRow>): Digest {
    r.hash(Encoding(r, Keys(SortByNumber(pages))))
  }

  /** Rows with the same number are the same row. */
  ghost predicate NumberedApart(pages: seq<PageRow>) {
    forall p, q :: p in pages && q in pages && p.number == q.number ==> p == q
  }

  lemma FirstIsLeast(pages: seq<PageRow>, p: PageRow)
    requires Ordered(pages) && p in pages
    ensures pages[0].number <= p.number
  {
    var i :| 0 <= i < |pages| && pages[i] == p;
    assert i > 0 ==> pages[0].number <= pages[i].number;
  }

  lemma SameFirst(a: seq<PageRow>, b: seq<PageRow>)
    requires Ordered(a) && Ordered(b) && multiset(a) == multiset(b) && NumberedApart(a) && a != [] && b != []
    ensures a[0] == b[0]
  {
    assert a[0] in multiset(b) && b[0] in multiset(a);
    FirstIsLeast(a, b[0]);
    FirstIsLeast(b, a[0]);
  }

  lemma SameRest(a: seq<PageRow>, b: seq<PageRow>)
    requires multiset(a) == multiset(b) && a != [] && b != [] && a[0] == b[0]
    ensures multiset(a[1..]) == multiset(b[1..])
  {
    assert a == [a[0]] + a[1..] && b == [b[0]] + b[1..];
    assert multiset(a[1..]) == multiset(a) - multiset{a[0]};
  }

  lemma SameLength(a: seq<PageRow>, b: seq<PageRow>)
    requires multiset(a) == multiset(b)
    ensures |a| == |b|
  {
    assert |multiset(a)| == |a| && |multiset(b)| == |b|;
  }

  lemma RestIsOrdered(pages: seq<PageRow>)
    requires Ordered(pages) && pages != []
    ensures Ordered(pages[1..])
  {
  }

  lemma {:induction false} OneOrder(a: seq<PageRow>, b: seq<PageRow>)
    requires Ordered(a) && Ordered(b) && multiset(a) == multiset(b) && NumberedApart(a)
    ensures a == b
  {
    SameLength(a, b);
    if a != [] {
      SameFirst(a, b);
      SameRest(a, b);
      RestIsOrdered(a);
      RestIsOrdered(b);
      OneOrder(a[1..], b[1..]);
      assert a == [a[0]] + a[1..] && b == [b[0]] + b[1..];
    }
  }

  /** The snapshot is of the pages, in whatever order a query returns them. */
  lemma RowOrderDoesNotMatter(r: Rendering, a: seq<PageRow>, b: seq<PageRow>)
    requires multiset(a) == multiset(b) && NumberedApart(a)
    ensures Snapshot(r, a) == Snapshot(r, b)
  {
    SortingOrders(a);
    SortingOrders(b);
    forall p | p in SortByNumber(a) ensures p in a {
      assert p in multiset(SortByNumber(a));
    }
    OneOrder(SortByNumber(a), SortByNumber(b));
  }

  lemma EncodingUnfolds(r: Rendering, keys: seq<PageKey>, i: nat, fed: string)
    requires i < |keys|
    ensures fed + Encoding(r, keys[i..]) == (fed + Line(r, keys[i])) + Encoding(r, keys[i + 1..])
  {
    assert keys[i..][1..] == keys[i + 1..];
  }

  /** `_compute_snapshot_sha256`, which feeds the hash line by line. */
  method ComputeSnapshot(r: Rendering, pages: seq<PageRow>) returns (digest: Digest)
    ensures digest == Snapshot(r, pages)
  {
    var sorted := SortByNumber(pages);
    var fed := "";
    ghost var keys := Keys(sorted);
    for i := 0 to |sorted|
      invariant fed + Encoding(r, keys[i..]) == Encoding(r, keys)
    {
      EncodingUnfolds(r, keys, i, fed);
      fed := fed + Line(r, Key(sorted[i]));
    }
    assert fed + "" == fed;
    digest := r.hash(fed);
  }

  // Reading a line back.

  lemma Concatenation(x: string, c: char, rest: string)
    ensures (x + [c] + rest)[|x|] == c
    ensures (x + [c] + rest)[..|x|] == x && (x + [c] + rest)[|x| + 1..] == rest
    ensures forall i :: 0 <= i < |x| ==> (x + [c] + rest)[i] == x[i]
    ensures forall i :: |x| < i <= |x| + |rest| ==> (x + [c] + rest)[i] == rest[i - |x| - 1]
  {
  }

  lemma FirstSeparatorSplits(c: char, x: string, y: string, restX: string, restY: string)
    requires x + [c] + restX == y + [c] + restY && c !in x && c !in y
    ensures x == y && restX == restY
  {
    Concatenation(x, c, restX);
    Concatenation(y, c, restY);
  }

  lemma LastSeparatorSplits(c: char, x: string, y: string, restX: string, restY: string)
    requires x + [c] + restX == y + [c] + restY && c !in restX && c !in restY
    ensures x == y && restX == restY
  {
    Concatenation(x, c, restX);
    Concatenation(y, c, restY);
  }

  /** Kinds and digests without separators; a locator may hold pipes, but no newline. */
  predicate Readable(k: PageKey) {
    Plain(k.kind) && Plain(k.digest) && '\n' !in k.locator
  }

  function LineBody(r: Rendering, k: PageKey): string {
    r.uuidText(k.id) + "|" + (Decimal(k.number) + "|" + (k.kind + "|" + (k.locator + "|" + k.digest)))
  }

  lemma LineIsBodyAndNewline(r: Rendering, k: PageKey)
    requires Faithful(r) && Readable(k)
    ensures Line(r, k) == LineBody(r, k) + "\n" && '\n' !in LineBody(r, k)
  {
    SignShows(k.number);
  }

  lemma BodyDeterminesKey(r: Rendering, a: PageKey, b: PageKey)
    requires Faithful(r) && Readable(a) && Readable(b) && LineBody(r, a) == LineBody(r, b)
    ensures a == b
  {
    SignShows(a.number);
    SignShows(b.number);
    var restA, restB := a.kind + "|" + (a.locator + "|" + a.digest), b.kind + "|" + (b.locator + "|" + b.digest);
    assert LineBody(r, a) == r.uuidText(a.id) + "|" + (Decimal(a.number) + "|" + restA);
    assert LineBody(r, b) == r.uuidText(b.id) + "|" + (Decimal(b.number) + "|" + restB);
    FirstSeparatorSplits('|', r.uuidText(a.id), r.uuidText(b.id), Decimal(a.number) + "|" + restA,
                         Decimal(b.number) + "|" + restB);
    FirstSeparatorSplits('|', Decimal(a.number), Decimal(b.number), restA, restB);
    DecimalIsInjective(a.number, b.number);
    FirstSeparatorSplits('|', a.kind, b.kind, a.locator + "|" + a.digest, b.locator + "|" + b.digest);
    LastSeparatorSplits('|', a.locator, b.locator, a.digest, b.digest);
  }

  lemma EncodingIsEmptyOnlyForNone(r: Rendering, keys: seq<PageKey>)
    ensures Encoding(r, keys) == "" <==> keys == []
  {
    if keys != [] {
      assert |Line(r, keys[0])| > 0;
    }
  }

  /** The encoding is uniquely decodable. */
  lemma {:induction false} EncodingDeterminesKeys(r: Rendering, a: seq<PageKey>, b: seq<PageKey>)
    requires Faithful(r)
    requires forall k :: k in a ==> Readable(k)
    requires forall k :: k in b ==> Readable(k)
    requires Encoding(r, a) == Encoding(r, b)
    ensures a == b
  {
    EncodingIsEmptyOnlyForNone(r, a);
    EncodingIsEmptyOnlyForNone(r, b);
    if a != [] {
      LineIsBodyAndNewline(r, a[0]);
      LineIsBodyAndNewline(r, b[0]);
      FirstSeparatorSplits('\n', LineBody(r, a[0]), LineBody(r, b[0]), Encoding(r, a[1..]), Encoding(r, b[1..]));
      BodyDeterminesKey(r, a[0], b[0]);
      EncodingDeterminesKeys(r, a[1..], b[1..]);
      assert a == [a[0]] + a[1..] && b == [b[0]] + b[1..];
    }
  }

  /** Every page carries the hash of its own text. */
  ghost predicate Hashed(r: Rendering, pages: seq<PageRow>) {
    forall i :: 0 <= i < |pages| ==> pages[i].digest == Some(r.hash(pages[i].content))
  }

  ghost predicate SeparatorFree(pages: seq<PageRow>) {
    forall i :: 0 <= i < |pages| ==> Plain(OrEmpty(pages[i].kind)) && '\n' !in OrEmpty(pages[i].locator)
  }

  /**
   * An unchanged snapshot digest means unchanged pages: the same rows in the same order, with the
   * same text, because each page's own hash is checked on both sides.
   */
  lemma EqualSnapshotsMeanEqualPages(r: Rendering, a: seq<PageRow>, b: seq<PageRow>)
    requires Faithful(r) && Injective(r.hash)
    requires Ordered(a) && Ordered(b) && Hashed(r, a) && Hashed(r, b) && SeparatorFree(a) && SeparatorFree(b)
    requires Snapshot(r, a) == Snapshot(r, b)
    ensures Keys(a) == Keys(b)
    ensures |a| == |b| && forall i :: 0 <= i < |a| ==> a[i].content == b[i].content
  {
    SortingOrderedPages(a);
    SortingOrderedPages(b);
    EncodingDeterminesKeys(r, Keys(a), Keys(b));
    forall i | 0 <= i < |a| ensures a[i].content == b[i].content {
      assert Keys(a)[i] == Keys(b)[i];
    }
  }

  /** The first two pages folded into one, whose locator spells out the end of one line and the start of the next. */
  function Merged(r: Rendering, a: PageKey, b: PageKey): PageKey {
    a.(locator := a.locator + "|" + a.digest + "\n"
                  + r.uuidText(b.id) + "|" + Decimal(b.number) + "|" + b.kind + "|" + b.locator,
       digest := b.digest)
  }

  lemma MergedLine(r: Rendering, a: PageKey, b: PageKey)
    ensures Line(r, Merged(r, a, b)) == Line(r, a) + Line(r, b)
  {
    var front := r.uuidText(a.id) + "|" + Decimal(a.number) + "|" + a.kind + "|";
    var first := a.locator + "|" + a.digest + "\n";
    var second := r.uuidText(b.id) + "|" + Decimal(b.number) + "|" + b.kind + "|" + b.locator;
    var back := "|" + b.digest + "\n";
    assert Line(r, a) == front + first;
    assert Line(r, b) == second + back;
    assert Merged(r, a, b).locator == first + second;
    assert Line(r, Merged(r, a, b)) == front + (first + second) + back;
  }

  lemma EncodingOfTwo(r: Rendering, a: PageKey, b: PageKey, rest: seq<PageKey>)
    ensures Encoding(r, [a] + rest) == Line(r, a) + Encoding(r, rest)
    ensures Encoding(r, [a, b] + rest) == (Line(r, a) + Line(r, b)) + Encoding(r, rest)
  {
    assert ([a] + rest)[1..] == rest;
    assert ([a, b] + rest)[1..] == [b] + rest && ([b] + rest)[1..] == rest;
  }

  /** Newline-free locators are needed: every list of two or more pages collides with a shorter one. */
  lemma NewlinesInLocatorsCollide(r: Rendering, keys: seq<PageKey>)
    requires |keys| >= 2
    ensures var shorter := [Merged(r, keys[0], keys[1])] + keys[2..];
            |shorter| < |keys| && Encoding(r, shorter) == Encoding(r, keys)
  {
    var m := Merged(r, keys[0], keys[1]);
    MergedLine(r, keys[0], keys[1]);
    EncodingOfTwo(r, m, keys[1], keys[2..]);
    EncodingOfTwo(r, keys[0], keys[1], keys[2..]);
    assert keys == [keys[0], keys[1]] + keys[2..];
  }

  /** Pipe-free kinds are needed too: text can be moved between a kind and a locator. */
  lemma PipesInKindsCollide(r: Rendering, k: PageKey, moved: string)
    ensures var a, b := k.(kind := k.kind + "|" + moved), k.(locator := moved + "|" + k.locator);
            a != b && Line(r, a) == Line(r, b)
  {
    var a, b := k.(kind := k.kind + "|" + moved), k.(locator := moved + "|" + k.locator);
    assert |a.kind| > |b.kind|;
    assert Line(r, a) == Line(r, b) by {
      assert k.kind + "|" + moved + "|" + k.locator == k.kind + "|" + (moved + "|" + k.locator);
      var front, back := r.uuidText(k.id) + "|" + Decimal(k.number) + "|", "|" + k.digest + "\n";
      assert Line(r, a) == front + (k.kind + "|" + moved + "|" + k.locator) + back;
      assert Line(r, b) == front + (k.kind + "|" + (moved + "|" + k.locator)) + back;
    }
  }

  /** Reading the digits back, the most significant first. */
  function ReadBack(s: string): int {
    if s == "" then 0 else 10 * ReadBack(s[..|s| - 1]) + (s[|s| - 1] as int - '0' as int)
  }

  lemma {:induction false} DigitsReadBack(n: nat)
    ensures ReadBack(Digits(n)) == n
  {
    if n < 10 {
      assert [Digit(n)][..0] == "";
    } else {
      DigitsReadBack(n / 10);
      assert Digits(n)[..|Digits(n)| - 1] == Digits(n / 10);
    }
  }

  /** A decimal numeral is the number it denotes. */
  lemma DecimalReadsBack(n: int)
    ensures n >= 0 ==> ReadBack(Decimal(n)) == n
    ensures n < 0 ==> Decimal(n)[0] == '-' && ReadBack(Decimal(n)[1..]) == -n
  {
    DigitsReadBack(if n < 0 then -n else n);
  }
}
