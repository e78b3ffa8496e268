/** The CSV product importer (`parseCSV` in components/ImportTools.tsx):
    the text is cut at line feeds, the first line is a header and is skipped,
    blank lines are skipped, and every other line is cut at EVERY comma — a
    comma inside quotes splits the field too — with one quote stripped from
    each end of a column and the rest trimmed. Rows with fewer than three
    columns are skipped; the others become products with defaults filled in.

    `parseFloat` and `parseInt` are parameters: a parser returns `None` where
    JavaScript yields NaN. Money and counts are whole numbers in this model. */
module CsvImport {
  import opened Collections
  import opened Types
  import opened Text

  const UnknownName: string := "Produit Inconnu"
  const DefaultCategory: string := "Autre"
  const PendingCategoryId: string := "pending_import"
  const DefaultMinThreshold: int := 5
  /** Fewer columns than this and the row is skipped. */
  const MinColumns: nat := 3

  /** The text of a column after splitting: one quote stripped from each end,
      then surrounding white space trimmed. */
  function CleanColumn(c: string): string
  {
    Trim(StripQuotes(c))
  }

  /** The cleaned columns of a line cut at every comma: always one column
      more than the line has commas. */
  function Columns(line: string): (cols: seq<string>)
    ensures |cols| == Occurrences(line, ',') + 1
    ensures |cols| == |Split(line, ',')|
    ensures forall i :: 0 <= i < |cols| ==> cols[i] == CleanColumn(Split(line, ',')[i])
  {
    var parts := Split(line, ',');
    SplitCount(line, ',');
    seq(|parts|, i requires 0 <= i < |parts| => CleanColumn(parts[i]))
  }

  /** A text column, where a missing or empty column takes the fallback. */
  function TextOr(cols: seq<string>, i: nat, fallback: string): string
  {
    if i < |cols| && cols[i] != "" then cols[i] else fallback
  }

  /** A numeric column: a missing column, an unreadable one (NaN) and one
      that reads as 0 all take the fallback. */
  function NumberOr(cols: seq<string>, i: nat, parse: string -> Option<int>, fallback: int): int
  {
    if i < |cols| then
      match parse(cols[i])
      case Some(v) => if v != 0 then v else fallback
      case None => fallback
    else fallback
  }

  /** An optional column: absent when missing or empty. */
  function OptionalColumn(cols: seq<string>, i: nat): Option<string>
  {
    if i < |cols| && cols[i] != "" then Some(cols[i]) else None
  }

  /** A line that yields a product: not blank, and at least two commas. */
  predicate Accepted(rawLine: string)
  {
    Trim(rawLine) != "" && Occurrences(Trim(rawLine), ',') + 1 >= MinColumns
  }

  /** The product a row of at least three columns describes. */
  function RowProduct(cols: seq<string>, id: string, parseDecimal: string -> Option<int>,
                      parseInteger: string -> Option<int>): (p: Product)
    ensures p.id == id && p.categoryId == PendingCategoryId
    ensures p.name == TextOr(cols, 0, UnknownName) && p.name != ""
    ensures p.categoryName == TextOr(cols, 1, DefaultCategory) && p.categoryName != ""
    ensures p.price == NumberOr(cols, 2, parseDecimal, 0)
    ensures p.purchasePrice == NumberOr(cols, 3, parseDecimal, 0)
    ensures p.quantity == NumberOr(cols, 4, parseInteger, 0)
    ensures p.minThreshold == NumberOr(cols, 5, parseInteger, DefaultMinThreshold) && p.minThreshold != 0
    ensures p.expirationDate.None? <==> |cols| <= 6 || cols[6] == ""
    ensures p.size.None? <==> |cols| <= 7 || cols[7] == ""
    ensures p.barcode.None? <==> |cols| <= 8 || cols[8] == ""
    ensures p.image.None? <==> |cols| <= 9 || cols[9] == ""
  {
    Product(
      id,
      TextOr(cols, 0, UnknownName),
      PendingCategoryId,
      TextOr(cols, 1, DefaultCategory),
      NumberOr(cols, 2, parseDecimal, 0),
      NumberOr(cols, 3, parseDecimal, 0),
      NumberOr(cols, 4, parseInteger, 0),
      NumberOr(cols, 5, parseInteger, DefaultMinThreshold),
      OptionalColumn(cols, 6),
      OptionalColumn(cols, 7),
      OptionalColumn(cols, 8),
      OptionalColumn(cols, 9))
  }

  /** The product one non-header line yields: none for a blank line or one
      with fewer than two commas. */
  function ParseLine(rawLine: string, id: string, parseDecimal: string -> Option<int>,
                     parseInteger: string -> Option<int>): (r: Option<Product>)
    ensures r.Some? <==> Accepted(rawLine)
    ensures Trim(rawLine) == "" ==> r.None?
    ensures Occurrences(Trim(rawLine), ',') < 2 ==> r.None?
    ensures r.Some? ==> r.value == RowProduct(Columns(Trim(rawLine)), id, parseDecimal, parseInteger)
  {
    var line := Trim(rawLine);
    if line == "" then None
    else
      var cols := Columns(line);
      if |cols| < MinColumns then None
      else Some(RowProduct(cols, id, parseDecimal, parseInteger))
  }

  /** What one line adds to the import: its product, or nothing. */
  function LineYield(rawLine: string, id: string, parseDecimal: string -> Option<int>,
                     parseInteger: string -> Option<int>): (r: seq<Product>)
    ensures |r| == if Accepted(rawLine) then 1 else 0
    ensures forall p :: p in r <==> ParseLine(rawLine, id, parseDecimal, parseInteger) == Some(p)
  {
    match ParseLine(rawLine, id, parseDecimal, parseInteger)
    case Some(p) => [p]
    case None => []
  }

  /** The products of lines `i` onwards, in line order. `ids(k)` stands for
      the id the importer draws from the clock and a random number for the
      product of line `k`. */
  function ParseFrom(lines: seq<string>, i: nat, ids: nat -> string, parseDecimal: string -> Option<int>,
                     parseInteger: string -> Option<int>): seq<Product>
    decreases |lines| - i
  {
    if i >= |lines| then []
    else
      LineYield(lines[i], ids(i), parseDecimal, parseInteger) + ParseFrom(lines, i + 1, ids, parseDecimal, parseInteger)
  }

  /** `parseCSV`: the products of every line after the first. */
  function ParseCsv(text: string, ids: nat -> string, parseDecimal: string -> Option<int>,
                    parseInteger: string -> Option<int>): seq<Product>
  {
    ParseFrom(Split(text, '\n'), 1, ids, parseDecimal, parseInteger)
  }

  /** Number of accepted lines from position `i` on. */
  function AcceptedFrom(lines: seq<string>, i: nat): (n: nat)
    ensures i <= |lines| ==> n <= |lines| - i
    decreases |lines| - i
  {
    if i >= |lines| then 0 else (if Accepted(lines[i]) then 1 else 0) + AcceptedFrom(lines, i + 1)
  }

  /** Positions of the accepted lines from position `i` on, in increasing order. */
  function AcceptedLines(lines: seq<string>, i: nat): (ks: seq<nat>)
    ensures forall m :: 0 <= m < |ks| ==> i <= ks[m] < |lines| && Accepted(lines[ks[m]])
    ensures forall m, n :: 0 <= m < n < |ks| ==> ks[m] < ks[n]
    ensures forall k :: i <= k < |lines| && Accepted(lines[k]) ==> k in ks
    ensures |ks| == AcceptedFrom(lines, i)
    decreases |lines| - i
  {
    if i >= |lines| then []
    else if Accepted(lines[i]) then [i] + AcceptedLines(lines, i + 1)
    else AcceptedLines(lines, i + 1)
  }

  /** The product the line at position `k` describes when it is accepted. */
  function LineProduct(lines: seq<string>, ids: nat -> string, parseDecimal: string -> Option<int>,
                       parseInteger: string -> Option<int>): nat -> Product
  {
    (k: nat) => RowProduct(Columns(Trim(if k < |lines| then lines[k] else "")), ids(k), parseDecimal, parseInteger)
  }

  /** The products come in line order: the `m`-th product is the one the
      `m`-th accepted line describes. */
  lemma {:induction false} ParseFromInOrder(lines: seq<string>, i: nat, ids: nat -> string,
                                            parseDecimal: string -> Option<int>, parseInteger: string -> Option<int>)
    ensures ListsAt(ParseFrom(lines, i, ids, parseDecimal, parseInteger), AcceptedLines(lines, i),
                    LineProduct(lines, ids, parseDecimal, parseInteger))
    decreases |lines| - i
  {
    if i < |lines| {
      ParseFromInOrder(lines, i + 1, ids, parseDecimal, parseInteger);
      LineYieldAt(lines, i, ids, parseDecimal, parseInteger);
      var f := LineProduct(lines, ids, parseDecimal, parseInteger);
      var rest := ParseFrom(lines, i + 1, ids, parseDecimal, parseInteger);
      var ks := AcceptedLines(lines, i + 1);
      if Accepted(lines[i]) {
        ListsAtCons(f(i), rest, i, ks, f);
        assert ParseFrom(lines, i, ids, parseDecimal, parseInteger) == [f(i)] + rest;
        assert AcceptedLines(lines, i) == [i] + ks;
      } else {
        assert ParseFrom(lines, i, ids, parseDecimal, parseInteger) == rest;
        assert AcceptedLines(lines, i) == ks;
      }
    }
  }

  /** What line `i` adds, in terms of `LineProduct`. */
  lemma LineYieldAt(lines: seq<string>, i: nat, ids: nat -> string,
                    parseDecimal: string -> Option<int>, parseInteger: string -> Option<int>)
    requires i < |lines|
    ensures Accepted(lines[i]) ==>
      LineYield(lines[i], ids(i), parseDecimal, parseInteger) == [LineProduct(lines, ids, parseDecimal, parseInteger)(i)]
    ensures !Accepted(lines[i]) ==> LineYield(lines[i], ids(i), parseDecimal, parseInteger) == []
  {
  }

  /** Exactly one product per accepted line. */
  lemma {:induction false} ParseFromCount(lines: seq<string>, i: nat, ids: nat -> string,
                                          parseDecimal: string -> Option<int>, parseInteger: string -> Option<int>)
    ensures |ParseFrom(lines, i, ids, parseDecimal, parseInteger)| == AcceptedFrom(lines, i)
    decreases |lines| - i
  {
    if i < |lines| {
      ParseFromCount(lines, i + 1, ids, parseDecimal, parseInteger);
    }
  }

  /** Every product comes from a line at or after `i`. */
  lemma {:induction false} ParseFromSound(lines: seq<string>, i: nat, ids: nat -> string,
                                          parseDecimal: string -> Option<int>, parseInteger: string -> Option<int>)
    ensures forall p :: p in ParseFrom(lines, i, ids, parseDecimal, parseInteger) ==>
      exists k :: i <= k < |lines| && ParseLine(lines[k], ids(k), parseDecimal, parseInteger) == Some(p)
    decreases |lines| - i
  {
    if i < |lines| {
      ParseFromSound(lines, i + 1, ids, parseDecimal, parseInteger);
    }
  }

  /** Every accepted line at or after `i` contributes its product. */
  lemma {:induction false} ParseFromComplete(lines: seq<string>, i: nat, ids: nat -> string,
                                             parseDecimal: string -> Option<int>, parseInteger: string -> Option<int>)
    ensures forall k :: i <= k < |lines| && Accepted(lines[k]) ==>
      ParseLine(lines[k], ids(k), parseDecimal, parseInteger).value in ParseFrom(lines, i, ids, parseDecimal, parseInteger)
    decreases |lines| - i
  {
    if i < |lines| {
      var rest := ParseFrom(lines, i + 1, ids, parseDecimal, parseInteger);
      var here := ParseLine(lines[i], ids(i), parseDecimal, parseInteger);
      var all := ParseFrom(lines, i, ids, parseDecimal, parseInteger);
      ParseFromComplete(lines, i + 1, ids, parseDecimal, parseInteger);
      if here.Some? {
        assert all == [here.value] + rest;
      } else {
        assert all == rest;
      }
      forall k | i <= k < |lines| && Accepted(lines[k])
        ensures ParseLine(lines[k], ids(k), parseDecimal, parseInteger).value in all
      {
        if k > i {
          assert ParseLine(lines[k], ids(k), parseDecimal, parseInteger).value in rest;
        }
      }
    }
  }

  /** The importer yields one product for each accepted line after the
      header — so at most one per line — and nothing else. */
  lemma ParseCsvYield(text: string, ids: nat -> string, parseDecimal: string -> Option<int>,
                      parseInteger: string -> Option<int>)
    ensures var lines := Split(text, '\n');
      && |ParseCsv(text, ids, parseDecimal, parseInteger)| == AcceptedFrom(lines, 1)
      && |ParseCsv(text, ids, parseDecimal, parseInteger)| <= |lines| - 1
      && (forall p :: p in ParseCsv(text, ids, parseDecimal, parseInteger) ==>
            exists k :: 1 <= k < |lines| && ParseLine(lines[k], ids(k), parseDecimal, parseInteger) == Some(p))
      && (forall k :: 1 <= k < |lines| && Accepted(lines[k]) ==>
            ParseLine(lines[k], ids(k), parseDecimal, parseInteger).value in ParseCsv(text, ids, parseDecimal, parseInteger))
      && ListsAt(ParseCsv(text, ids, parseDecimal, parseInteger), AcceptedLines(lines, 1),
                 LineProduct(lines, ids, parseDecimal, parseInteger))
  {
    var lines := Split(text, '\n');
    ParseFromInOrder(lines, 1, ids, parseDecimal, parseInteger);
    ParseFromCount(lines, 1, ids, parseDecimal, parseInteger);
    ParseFromSound(lines, 1, ids, parseDecimal, parseInteger);
    ParseFromComplete(lines, 1, ids, parseDecimal, parseInteger);
  }

  /** The products from position `i` on depend only on the lines from `i` on. */
  lemma {:induction false} ParseFromOnlyReadsTail(a: seq<string>, b: seq<string>, i: nat, ids: nat -> string,
                                                  parseDecimal: string -> Option<int>, parseInteger: string -> Option<int>)
    requires i <= |a| && |a| == |b| && a[i..] == b[i..]
    ensures ParseFrom(a, i, ids, parseDecimal, parseInteger) == ParseFrom(b, i, ids, parseDecimal, parseInteger)
    decreases |a| - i
  {
    if i < |a| {
      assert a[i] == a[i..][0] == b[i..][0] == b[i];
      assert a[i + 1..] == a[i..][1..];
      assert b[i + 1..] == b[i..][1..];
      ParseFromOnlyReadsTail(a, b, i + 1, ids, parseDecimal, parseInteger);
    }
  }

  /** The header line is never read: any two headers give the same import. */
  lemma HeaderIgnored(header1: string, header2: string, body: string, ids: nat -> string,
                      parseDecimal: string -> Option<int>, parseInteger: string -> Option<int>)
    requires '\n' !in header1 && '\n' !in header2
    ensures ParseCsv(header1 + "\n" + body, ids, parseDecimal, parseInteger)
         == ParseCsv(header2 + "\n" + body, ids, parseDecimal, parseInteger)
  {
    SplitAtFirst(header1, '\n', body);
    SplitAtFirst(header2, '\n', body);
    var a := Split(header1 + "\n" + body, '\n');
    var b := Split(header2 + "\n" + body, '\n');
    assert a[1..] == b[1..];
    ParseFromOnlyReadsTail(a, b, 1, ids, parseDecimal, parseInteger);
  }
}
