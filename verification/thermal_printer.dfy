/**
 The receipt layout of `ThermalPrinter`: the fixed-width line sequence that
 `generateReceiptContent` builds, its two alignment rules, the line buffer
 it appends to, and the page height the PDF path derives from it.
 */
module ThermalPrinter {
  import opened Wrappers
  import opened Text
  import opened Numerals
  import opened Products
  import opened Orders
  import opened Receipts
  import Pricing

  /** Characters per printed line. */
  const CharWidth: nat := 32
  const PrinterWidthMm: nat := 58

  const Separator: string := Repeat('-', 32)

  /** `String.format("%-22s%10s", "Description", "Amount")`. */
  const ColumnHeader: string := PadRight("Description", 22) + PadLeft("Amount", 10)

  /** `centerText`: text of 32 characters or more is left alone; shorter text
      gets half the slack, rounded down, as leading spaces. */
  function CenterText(text: string): string {
    if |text| >= CharWidth then text else Repeat(' ', (CharWidth - |text|) / 2) + text
  }

  /** Centring: long text is unchanged; short text is prefixed by spaces
      only, ends with the text, fits the line, and its left padding is the
      slack halved and rounded down (the right slack is equal or one more). */
  lemma CenterTextSpec(text: string)
    ensures |text| >= CharWidth ==> CenterText(text) == text
    ensures |text| < CharWidth ==>
      var r := CenterText(text);
      && |text| <= |r| <= CharWidth
      && r[|r| - |text|..] == text
      && (forall i :: 0 <= i < |r| - |text| ==> r[i] == ' ')
      && |r| - |text| <= CharWidth - |r| <= |r| - |text| + 1
  {
    if |text| < CharWidth {
      RepeatChars(' ', (CharWidth - |text|) / 2);
    }
  }

  /** `rightAlign`: text of 32 characters or more is left alone; shorter text
      is padded on the left to exactly 32 characters. */
  function RightAlign(text: string): string {
    if |text| >= CharWidth then text else Repeat(' ', CharWidth - |text|) + text
  }

  /** Right alignment: long text is unchanged; short text becomes exactly 32
      characters, spaces and then the text. */
  lemma RightAlignSpec(text: string)
    ensures |text| >= CharWidth ==> RightAlign(text) == text
    ensures |text| < CharWidth ==>
      var r := RightAlign(text);
      && |r| == CharWidth
      && r[CharWidth - |text|..] == text
      && (forall i :: 0 <= i < CharWidth - |text| ==> r[i] == ' ')
  {
    if |text| < CharWidth {
      RepeatChars(' ', CharWidth - |text|);
    }
  }

  /** The length of a right-aligned line: 32, or the text's own length when
      that is longer. */
  lemma RightAlignLength(text: string)
    ensures |RightAlign(text)| == if |text| < CharWidth then CharWidth else |text|
  {
  }

  /** `s` without its leading spaces. */
  function TrimLeadingSpaces(s: string): string {
    if |s| > 0 && s[0] == ' ' then TrimLeadingSpaces(s[1..]) else s
  }

  lemma {:induction false} TrimSpacesPrefix(n: nat, text: string)
    requires text == [] || text[0] != ' '
    ensures TrimLeadingSpaces(Repeat(' ', n) + text) == text
    decreases n
  {
    if n > 0 {
      assert (Repeat(' ', n) + text)[0] == ' ';
      assert (Repeat(' ', n) + text)[1..] == Repeat(' ', n - 1) + text;
      TrimSpacesPrefix(n - 1, text);
    } else {
      assert Repeat(' ', n) + text == text;
    }
  }

  /** Alignment only adds leading spaces: removing them gives back any text
      that does not itself start with a space. */
  lemma AlignmentRoundTrip(text: string)
    requires text == [] || text[0] != ' '
    ensures TrimLeadingSpaces(CenterText(text)) == text
    ensures TrimLeadingSpaces(RightAlign(text)) == text
  {
    if |text| >= CharWidth {
      TrimSpacesPrefix(0, text);
    } else {
      TrimSpacesPrefix((CharWidth - |text|) / 2, text);
      TrimSpacesPrefix(CharWidth - |text|, text);
    }
  }

  /** Centring text shorter than the line puts `n` spaces before it. */
  lemma CenteredAs(text: string, n: nat)
    requires |text| < CharWidth && n == (CharWidth - |text|) / 2
    ensures CenterText(text) == Repeat(' ', n) + text
  {
  }

  /** The eight lines above the items. */
  function HeaderLines(): seq<string> {
    [ CenterText(BusinessName), CenterText(Slogan), CenterText("Instagram: " + Instagram),
      Separator, CenterText("INVOICE"), Separator, ColumnHeader, Separator ]
  }

  /** The separator is a full line of dashes. */
  lemma SeparatorLayout()
    ensures |Separator| == CharWidth
    ensures forall j :: 0 <= j < |Separator| ==> Separator[j] == '-'
  {
    RepeatChars('-', 32);
  }

  /** The column header is "Description" flush left and "Amount" flush right
      on one full line. */
  lemma ColumnHeaderLayout()
    ensures ColumnHeader == "Description" + Repeat(' ', 15) + "Amount"
    ensures |ColumnHeader| == CharWidth
  {
    RepeatChars(' ', 11);
    RepeatChars(' ', 4);
    RepeatChars(' ', 15);
    assert PadRight("Description", 22) == "Description" + Repeat(' ', 11);
    assert PadLeft("Amount", 10) == Repeat(' ', 4) + "Amount";
    assert Repeat(' ', 11) + Repeat(' ', 4) == Repeat(' ', 15);
  }

  /** The header as printed: business name, slogan and Instagram handle
      centred with 9, 1 and 2 leading spaces, "INVOICE" with 12, and the
      column header between full-width separators. */
  lemma HeaderLayout()
    ensures HeaderLines() ==
      [ Repeat(' ', 9) + BusinessName, " " + Slogan,
        Repeat(' ', 2) + ("Instagram: " + Instagram), Separator, Repeat(' ', 12) + "INVOICE",
        Separator, "Description" + Repeat(' ', 15) + "Amount", Separator ]
  {
    HeaderFitsLine();
    CenteredAs(BusinessName, 9);
    CenteredAs(Slogan, 1);
    CenteredAs("Instagram: " + Instagram, 2);
    CenteredAs("INVOICE", 12);
    ColumnHeaderLayout();
    assert Repeat(' ', 1) == " ";
  }

  /** First line of an entry: `"{displayName} - {variant}"`. */
  function DescriptionLine(p: Product): string {
    DisplayName(p.ptype) + " - " + p.variant
  }

  /** Text of the second line of an entry, `"%dx%,d = Rp %,d"` of the
      quantity, the unit price and their product. */
  function AmountText(p: Product, q: int): string {
    IntToString(q) + "x" + GroupedInt(p.price) + " = Rp " + GroupedInt(p.price * q)
  }

  /** The two lines of one cart entry. */
  function EntryLines(p: Product, m: map<Product, int>): (lines: seq<string>)
    ensures |lines| == 2
  {
    [DescriptionLine(p), RightAlign(AmountText(p, if p in m then m[p] else 0))]
  }

  /** The lines of each element of `xs`, one block after another. */
  function FlatMap<T>(xs: seq<T>, f: T -> seq<string>): seq<string> {
    if |xs| == 0 then [] else f(xs[0]) + FlatMap(xs[1..], f)
  }

  /** The entry layout for the quantities of `m`. */
  function EntryLayout(m: map<Product, int>): Product -> seq<string> {
    p => EntryLines(p, m)
  }

  /** The item block, entries taken in the order of `keys`. */
  function ItemLines(keys: seq<Product>, m: map<Product, int>): seq<string> {
    FlatMap(keys, EntryLayout(m))
  }

  /** When every element has a two-line block, element `i` owns lines `2i`
      and `2i + 1`. */
  lemma {:induction false} FlatMapPairs<T>(xs: seq<T>, f: T -> seq<string>)
    requires forall x :: x in xs ==> |f(x)| == 2
    ensures |FlatMap(xs, f)| == 2 * |xs|
    ensures forall i :: 0 <= i < |xs| ==>
      FlatMap(xs, f)[2 * i] == f(xs[i])[0] && FlatMap(xs, f)[2 * i + 1] == f(xs[i])[1]
    decreases |xs|
  {
    if |xs| > 0 {
      assert forall x :: x in xs[1..] ==> x in xs;
      FlatMapPairs(xs[1..], f);
      var r, rest := FlatMap(xs, f), FlatMap(xs[1..], f);
      assert r == f(xs[0]) + rest;
      forall i | 1 <= i < |xs|
        ensures r[2 * i] == f(xs[i])[0] && r[2 * i + 1] == f(xs[i])[1]
      {
        assert r[2 * i] == rest[2 * (i - 1)];
        assert r[2 * i + 1] == rest[2 * (i - 1) + 1];
        assert xs[1..][i - 1] == xs[i];
      }
    }
  }

  /** The item block has two lines per entry: entry `i`'s description, then
      its right-aligned amount line. */
  lemma ItemLinesShape(keys: seq<Product>, m: map<Product, int>)
    requires forall k :: k in keys ==> k in m
    ensures |ItemLines(keys, m)| == 2 * |keys|
    ensures forall i :: 0 <= i < |keys| ==>
      && ItemLines(keys, m)[2 * i] == DescriptionLine(keys[i])
      && ItemLines(keys, m)[2 * i + 1] == RightAlign(AmountText(keys[i], m[keys[i]]))
  {
    FlatMapPairs(keys, EntryLayout(m));
  }

  lemma ItemLinesLength(keys: seq<Product>, m: map<Product, int>)
    requires forall k :: k in keys ==> k in m
    ensures |ItemLines(keys, m)| == 2 * |keys|
  {
    ItemLinesShape(keys, m);
  }

  /** Text of the total line: the discounted total, truncated. */
  ghost function TotalText(r: Receipt): string {
    "Total: Rp " + GroupedInt(JavaLong(OrderTotal(r.order)))
  }

  function PaymentText(r: Receipt): string {
    (if r.ePayment then "E-payment: Rp " else "Cash: Rp ") + GroupedInt(JavaLong(r.cashGiven))
  }

  function ChangeText(r: Receipt): string {
    "Change: Rp " + GroupedInt(JavaLong(r.change))
  }

  /** The six lines below the items. There is no discount line. */
  ghost function TotalsLines(r: Receipt): seq<string> {
    [ Separator, RightAlign(TotalText(r)), RightAlign(PaymentText(r)),
      RightAlign(ChangeText(r)), Separator, Separator ]
  }

  /** The six closing lines; `date` is the clock reading formatted
      "yyyy-MM-dd HH:mm". */
  function FooterLines(date: string): seq<string> {
    [ "Date: " + date, "", CenterText("Thank you for your purchase!"), "",
      CenterText("Best served cold"), CenterText("Please kept refrigerated") ]
  }

  /** The footer as printed: the date line, then the three closing lines
      centred with 2, 8 and 4 leading spaces around two blank lines. */
  lemma FooterLayout(date: string)
    ensures FooterLines(date) ==
      [ "Date: " + date, "", Repeat(' ', 2) + "Thank you for your purchase!", "",
        Repeat(' ', 8) + "Best served cold", Repeat(' ', 4) + "Please kept refrigerated" ]
  {
  }

  /** Centred text that fits the line still fits it. */
  lemma CenterFits(text: string)
    requires |text| <= CharWidth
    ensures |CenterText(text)| <= CharWidth
  {
    CenterTextSpec(text);
  }

  /** Every header line fits the paper, and so does every footer line
      after the date line. */
  lemma FixedLinesFit(date: string)
    ensures forall i :: 0 <= i < 8 ==> |HeaderLines()[i]| <= CharWidth
    ensures forall i :: 1 <= i < 6 ==> |FooterLines(date)[i]| <= CharWidth
  {
    CenterFits(BusinessName);
    CenterFits(Slogan);
    CenterFits("Instagram: " + Instagram);
    CenterFits("INVOICE");
    CenterFits("Thank you for your purchase!");
    CenterFits("Best served cold");
    CenterFits("Please kept refrigerated");
    SeparatorLayout();
    ColumnHeaderLayout();
  }

  /** The lines one run of `generateReceiptContent` appends, for the map
      iteration order `keys`. */
  ghost function ReceiptContent(r: Receipt, keys: seq<Product>, date: string): seq<string> {
    HeaderLines() + ItemLines(keys, r.order.items) + (TotalsLines(r) + FooterLines(date))
  }

  /** Cutting a concatenation of four blocks at the block boundaries
      `i`, `j`, `k` gives the blocks back. */
  lemma Concat4<T>(s: seq<T>, a: seq<T>, b: seq<T>, c: seq<T>, d: seq<T>, i: nat, j: nat, k: nat, l: nat)
    requires s == a + b + (c + d)
    requires i == |a| && j == i + |b| && k == j + |c| && l == k + |d|
    ensures |s| == l
    ensures s[0..i] == a && s[i..j] == b && s[j..k] == c && s[k..l] == d
  {
  }

  /** Element `k` of a slice is element `lo + k` of the whole. */
  lemma SliceAt<T>(s: seq<T>, lo: nat, hi: nat, t: seq<T>, k: nat)
    requires lo <= hi <= |s| && s[lo..hi] == t && k < |t|
    ensures s[lo + k] == t[k]
  {
  }

  /** A receipt has 20 + 2n lines, n being the number of cart entries: the
      8-line header, two lines per entry, the 6-line totals block and the
      6-line footer, in that order. */
  lemma ReceiptParts(r: Receipt, keys: seq<Product>, date: string)
    requires Enumerates(keys, r.order.items)
    ensures var lines, n := ReceiptContent(r, keys, date), |r.order.items|;
      && |lines| == 20 + 2 * n
      && lines[0..8] == HeaderLines()
      && lines[8..8 + 2 * n] == ItemLines(keys, r.order.items)
      && lines[8 + 2 * n..14 + 2 * n] == TotalsLines(r)
      && lines[14 + 2 * n..20 + 2 * n] == FooterLines(date)
  {
    var h, it, t, f := HeaderLines(), ItemLines(keys, r.order.items), TotalsLines(r), FooterLines(date);
    var n := |r.order.items|;
    EnumerationSubtotal(keys, r.order);
    ItemLinesLength(keys, r.order.items);
    Concat4(ReceiptContent(r, keys, date), h, it, t, f, 8, 8 + 2 * n, 14 + 2 * n, 20 + 2 * n);
  }

  /** Element `i`'s two lines in a block of two-line entries. */
  lemma FlatMapPairAt<T>(xs: seq<T>, f: T -> seq<string>, i: nat, x: T)
    requires forall y :: y in xs ==> |f(y)| == 2
    requires i < |xs| && xs[i] == x
    ensures |FlatMap(xs, f)| == 2 * |xs|
    ensures FlatMap(xs, f)[2 * i] == f(x)[0] && FlatMap(xs, f)[2 * i + 1] == f(x)[1]
  {
    FlatMapPairs(xs, f);
  }

  /** The two lines at offset `k` of a block placed at `lo` are the block's
      lines `k` and `k + 1`. */
  lemma PairAt<T>(s: seq<T>, lo: nat, hi: nat, t: seq<T>, k: nat, x: T, y: T)
    requires lo <= hi <= |s| && s[lo..hi] == t
    requires k + 1 < |t| && t[k] == x && t[k + 1] == y
    ensures s[lo + k] == x && s[lo + k + 1] == y
  {
    assert s[lo + k] == s[lo..hi][k];
    assert s[lo + k + 1] == s[lo..hi][k + 1];
  }

  /** Wherever a block of two-line entries sits, element `i` owns its
      `i`-th pair of lines. */
  lemma BlockLineAt<T>(lines: seq<string>, start: nat, xs: seq<T>, f: T -> seq<string>, i: nat, x: T)
    requires forall y :: y in xs ==> |f(y)| == 2
    requires i < |xs| && xs[i] == x
    requires start + 2 * |xs| <= |lines| && lines[start..start + 2 * |xs|] == FlatMap(xs, f)
    ensures lines[start + 2 * i] == f(x)[0] && lines[start + 2 * i + 1] == f(x)[1]
  {
    FlatMapPairAt(xs, f, i, x);
    PairAt(lines, start, start + 2 * |xs|, FlatMap(xs, f), 2 * i, f(x)[0], f(x)[1]);
  }

  /** Wherever a block of two-line entries sits, each element owns two
      consecutive lines of it, the `i`-th pair. */
  lemma BlockEntryAt<T>(lines: seq<string>, start: nat, xs: seq<T>, f: T -> seq<string>, x: T) returns (i: nat)
    requires forall y :: y in xs ==> |f(y)| == 2
    requires x in xs
    requires start + 2 * |xs| <= |lines| && lines[start..start + 2 * |xs|] == FlatMap(xs, f)
    ensures i < |xs| && xs[i] == x
    ensures lines[start + 2 * i] == f(x)[0] && lines[start + 2 * i + 1] == f(x)[1]
  {
    i :| 0 <= i < |xs| && xs[i] == x;
    BlockLineAt(lines, start, xs, f, i, x);
  }

  /** Each cart entry, whatever its quantity, gets one pair of consecutive
      lines in the item block, at its own position `i` in the iteration
      order: its description, then its amount line. As the iteration order
      lists each entry once, no other pair belongs to it. */
  lemma EachEntryTwoLines(r: Receipt, keys: seq<Product>, date: string, p: Product)
    requires Enumerates(keys, r.order.items)
    requires p in r.order.items
    ensures var lines := ReceiptContent(r, keys, date);
      && |lines| == 20 + 2 * |r.order.items|
      && |keys| == |r.order.items|
      && (exists i :: 0 <= i < |keys|
            && keys[i] == p
            && lines[8 + 2 * i] == DescriptionLine(p)
            && lines[9 + 2 * i] == RightAlign(AmountText(p, r.order.items[p])))
  {
    EnumerationSubtotal(keys, r.order);
    ReceiptParts(r, keys, date);
    var i := BlockEntryAt(ReceiptContent(r, keys, date), 8, keys, EntryLayout(r.order.items), p);
  }

  /** The totals block prints a separator, the discounted total, then the
      tender under the label of its payment method, then the change, and two
      separators, with no discount line in between. */
  lemma TotalsBlock(r: Receipt, keys: seq<Product>, date: string)
    requires Enumerates(keys, r.order.items)
    ensures var lines, n := ReceiptContent(r, keys, date), |r.order.items|;
      && |lines| == 20 + 2 * n
      && lines[8 + 2 * n] == lines[12 + 2 * n] == lines[13 + 2 * n] == Separator
      && lines[9 + 2 * n] == RightAlign("Total: Rp " + GroupedInt(JavaLong(OrderTotal(r.order))))
      && lines[10 + 2 * n] == RightAlign((if r.ePayment then "E-payment: Rp " else "Cash: Rp ") + GroupedInt(JavaLong(r.cashGiven)))
      && lines[11 + 2 * n] == RightAlign("Change: Rp " + GroupedInt(JavaLong(r.change)))
  {
    ReceiptParts(r, keys, date);
    var n := |r.order.items|;
    var lines, t := ReceiptContent(r, keys, date), TotalsLines(r);
    SliceAt(lines, 8 + 2 * n, 14 + 2 * n, t, 0);
    SliceAt(lines, 8 + 2 * n, 14 + 2 * n, t, 1);
    SliceAt(lines, 8 + 2 * n, 14 + 2 * n, t, 2);
    SliceAt(lines, 8 + 2 * n, 14 + 2 * n, t, 3);
    SliceAt(lines, 8 + 2 * n, 14 + 2 * n, t, 4);
    SliceAt(lines, 8 + 2 * n, 14 + 2 * n, t, 5);
  }

  /** Once a discount applies, the amount on the total line is below the
      subtotal: the receipt shows the discounted figure, and the figure reads
      back as the truncated total. */
  lemma TotalLineIsDiscounted(r: Receipt)
    requires NonNegative(r.order)
    requires Subtotal(r.order) >= Pricing.DiscountThreshold1
    ensures ParseDecimal(StripCommas(GroupedInt(JavaLong(OrderTotal(r.order))))) == Some(JavaLong(OrderTotal(r.order)) as real)
    ensures JavaLong(OrderTotal(r.order)) < Subtotal(r.order)
    ensures JavaLong(OrderTotal(r.order)) as real > Subtotal(r.order) as real * 0.9 - 1.0
  {
    TotalBounds(r.order);
    ParseDecimalOfGrouped(JavaLong(OrderTotal(r.order)));
  }

  /** A block whose lines from index `from` on all fit a width still fits
      it from there on, wherever it sits. */
  lemma BlockFits(lines: seq<string>, lo: nat, hi: nat, t: seq<string>, from: nat, w: nat)
    requires lo <= hi <= |lines| && lines[lo..hi] == t
    requires forall j :: from <= j < |t| ==> |t[j]| <= w
    ensures forall i :: lo + from <= i < hi ==> |lines[i]| <= w
  {
    forall i | lo + from <= i < hi ensures |lines[i]| <= w {
      assert lines[i] == t[i - lo];
    }
  }

  /** The amount line of one entry is 32 characters, or its text's own
      length when that is longer. */
  lemma AmountLineWidth(m: map<Product, int>, x: Product)
    requires x in m
    ensures var text := AmountText(x, m[x]);
      |EntryLayout(m)(x)[1]| == (if |text| < CharWidth then CharWidth else |text|)
  {
    RightAlignLength(AmountText(x, m[x]));
  }

  /** Wherever the item block sits, the amount line of entry `i` has the
      width of a right-aligned line. */
  lemma AmountLineAt(lines: seq<string>, start: nat, keys: seq<Product>, m: map<Product, int>, i: nat)
    requires forall k :: k in keys ==> k in m
    requires i < |keys|
    requires start + 2 * |keys| <= |lines| && lines[start..start + 2 * |keys|] == ItemLines(keys, m)
    ensures var text := AmountText(keys[i], m[keys[i]]);
      |lines[start + 2 * i + 1]| == (if |text| < CharWidth then CharWidth else |text|)
  {
    BlockLineAt(lines, start, keys, EntryLayout(m), i, keys[i]);
    AmountLineWidth(m, keys[i]);
  }

  /** Every amount line of the item block has the width of a right-aligned
      line. */
  lemma AmountLineWidths(lines: seq<string>, start: nat, hi: nat, first: nat, keys: seq<Product>, m: map<Product, int>)
    requires forall k :: k in keys ==> k in m
    requires hi == start + 2 * |keys| && first == start + 1
    requires hi <= |lines| && lines[start..hi] == ItemLines(keys, m)
    ensures forall i :: 0 <= i < |keys| ==>
      var text := AmountText(keys[i], m[keys[i]]);
      |lines[first + 2 * i]| == (if |text| < CharWidth then CharWidth else |text|)
  {
    forall i | 0 <= i < |keys|
      ensures var text := AmountText(keys[i], m[keys[i]]);
        |lines[first + 2 * i]| == (if |text| < CharWidth then CharWidth else |text|)
    {
      AmountLineAt(lines, start, keys, m, i);
    }
  }

  /** Wherever the totals block sits, its total, tender and change lines
      have the width of a right-aligned line. */
  lemma TotalsWidths(r: Receipt, lines: seq<string>, start: nat)
    requires start + 6 <= |lines| && lines[start..start + 6] == TotalsLines(r)
    ensures |lines[start + 1]| == (if |TotalText(r)| < CharWidth then CharWidth else |TotalText(r)|)
    ensures |lines[start + 2]| == (if |PaymentText(r)| < CharWidth then CharWidth else |PaymentText(r)|)
    ensures |lines[start + 3]| == (if |ChangeText(r)| < CharWidth then CharWidth else |ChangeText(r)|)
  {
    var t := TotalsLines(r);
    SliceAt(lines, start, start + 6, t, 1);
    SliceAt(lines, start, start + 6, t, 2);
    SliceAt(lines, start, start + 6, t, 3);
    RightAlignLength(TotalText(r));
    RightAlignLength(PaymentText(r));
    RightAlignLength(ChangeText(r));
  }

  /** The total, tender and change lines of a receipt, placed after its
      entries, are right-aligned to 32 characters. */
  lemma ReceiptTotalsWidths(r: Receipt, keys: seq<Product>, date: string)
    requires Enumerates(keys, r.order.items)
    ensures var lines, n := ReceiptContent(r, keys, date), |r.order.items|;
      && |lines| == 20 + 2 * n
      && |lines[9 + 2 * n]| == (if |TotalText(r)| < CharWidth then CharWidth else |TotalText(r)|)
      && |lines[10 + 2 * n]| == (if |PaymentText(r)| < CharWidth then CharWidth else |PaymentText(r)|)
      && |lines[11 + 2 * n]| == (if |ChangeText(r)| < CharWidth then CharWidth else |ChangeText(r)|)
  {
    ReceiptParts(r, keys, date);
    TotalsWidths(r, ReceiptContent(r, keys, date), 8 + 2 * |r.order.items|);
  }

  /** The header lines and the footer lines after the date are at most 32
      characters. */
  lemma FrameWidths(r: Receipt, keys: seq<Product>, date: string)
    requires Enumerates(keys, r.order.items)
    ensures var lines, n := ReceiptContent(r, keys, date), |r.order.items|;
      && |lines| == 20 + 2 * n
      && (forall i :: 0 <= i < 8 ==> |lines[i]| <= CharWidth)
      && (forall i :: 15 + 2 * n <= i < 20 + 2 * n ==> |lines[i]| <= CharWidth)
  {
    ReceiptParts(r, keys, date);
    FixedLinesFit(date);
    var n := |r.order.items|;
    var lines := ReceiptContent(r, keys, date);
    BlockFits(lines, 0, 8, HeaderLines(), 0, CharWidth);
    BlockFits(lines, 14 + 2 * n, 20 + 2 * n, FooterLines(date), 1, CharWidth);
  }

  /** Where the item block sits in a receipt. */
  lemma ItemBlock(r: Receipt, keys: seq<Product>, date: string)
    requires Enumerates(keys, r.order.items)
    ensures var lines, n := ReceiptContent(r, keys, date), |r.order.items|;
      && |lines| == 20 + 2 * n && |keys| == n
      && lines[8..8 + 2 * |keys|] == ItemLines(keys, r.order.items)
  {
    ReceiptParts(r, keys, date);
    EnumerationLength(keys, r.order.items);
  }

  /** The amount line of each entry is right-aligned to 32 characters. */
  lemma EntryWidths(r: Receipt, keys: seq<Product>, date: string)
    requires Enumerates(keys, r.order.items)
    ensures var lines := ReceiptContent(r, keys, date);
      && |lines| == 20 + 2 * |r.order.items|
      && |keys| == |r.order.items|
      && (forall i :: 0 <= i < |keys| ==>
            var text := AmountText(keys[i], r.order.items[keys[i]]);
            |lines[9 + 2 * i]| == (if |text| < CharWidth then CharWidth else |text|))
  {
    ItemBlock(r, keys, date);
    var lines := ReceiptContent(r, keys, date);
    assert forall k :: k in keys ==> k in r.order.items;
    assert 8 + 2 * |keys| <= |lines|;
    assert lines[8..8 + 2 * |keys|] == ItemLines(keys, r.order.items);
    AmountLineWidths(lines, 8, 8 + 2 * |keys|, 9, keys, r.order.items);
  }

  /** The right-aligned lines (the amount line of each entry, and the total,
      tender and change lines) are exactly 32 characters when their text
      fits and are the bare text otherwise; the header lines and the footer
      lines after the date are at most 32 characters. */
  lemma LineWidths(r: Receipt, keys: seq<Product>, date: string)
    requires Enumerates(keys, r.order.items)
    ensures var lines, n := ReceiptContent(r, keys, date), |r.order.items|;
      && |lines| == 20 + 2 * n
      && (forall i :: 0 <= i < 8 ==> |lines[i]| <= CharWidth)
      && |keys| == n
      && (forall i :: 0 <= i < |keys| ==>
            var text := AmountText(keys[i], r.order.items[keys[i]]);
            |lines[9 + 2 * i]| == (if |text| < CharWidth then CharWidth else |text|))
      && |lines[9 + 2 * n]| == (if |TotalText(r)| < CharWidth then CharWidth else |TotalText(r)|)
      && |lines[10 + 2 * n]| == (if |PaymentText(r)| < CharWidth then CharWidth else |PaymentText(r)|)
      && |lines[11 + 2 * n]| == (if |ChangeText(r)| < CharWidth then CharWidth else |ChangeText(r)|)
      && (forall i :: 15 + 2 * n <= i < 20 + 2 * n ==> |lines[i]| <= CharWidth)
  {
    FrameWidths(r, keys, date);
    EntryWidths(r, keys, date);
    ReceiptTotalsWidths(r, keys, date);
  }

  lemma {:induction false} FlatMapAppend<T>(a: seq<T>, b: seq<T>, f: T -> seq<string>)
    ensures FlatMap(a + b, f) == FlatMap(a, f) + FlatMap(b, f)
    decreases |a|
  {
    if |a| == 0 {
      assert a + b == b;
    } else {
      assert (a + b)[1..] == a[1..] + b;
      FlatMapAppend(a[1..], b, f);
    }
  }

  /** Taking element `j` out of a sequence. */
  lemma SplitAt<T>(b: seq<T>, j: nat)
    requires j < |b|
    ensures b == b[..j] + [b[j]] + b[j + 1..]
    ensures multiset(b[..j] + b[j + 1..]) == multiset(b) - multiset{b[j]}
  {
    assert b == b[..j] + [b[j]] + b[j + 1..];
  }

  /** The first element of `a` occurs in any `b` with the same multiset,
      and removing one occurrence from each leaves equal multisets. */
  lemma MatchFirst<T>(a: seq<T>, b: seq<T>) returns (j: nat)
    requires multiset(a) == multiset(b) && |a| > 0
    ensures j < |b| && b[j] == a[0]
    ensures b == b[..j] + [a[0]] + b[j + 1..]
    ensures multiset(a[1..]) == multiset(b[..j] + b[j + 1..])
  {
    SplitAt(a, 0);
    assert a[0] in multiset(b);
    j :| 0 <= j < |b| && b[j] == a[0];
    SplitAt(b, j);
    assert a[..0] + a[1..] == a[1..];
  }

  lemma FlatMapCons<T>(x: T, xs: seq<T>, f: T -> seq<string>)
    ensures FlatMap([x] + xs, f) == f(x) + FlatMap(xs, f)
  {
    assert ([x] + xs)[1..] == xs;
  }

  /** The block of an inner element sits between the blocks around it. */
  lemma FlatMapSplit<T>(pre: seq<T>, x: T, post: seq<T>, f: T -> seq<string>)
    ensures FlatMap(pre + [x] + post, f) == FlatMap(pre, f) + f(x) + FlatMap(post, f)
    ensures FlatMap(pre + post, f) == FlatMap(pre, f) + FlatMap(post, f)
  {
    FlatMapAppend(pre, post, f);
    FlatMapCons(x, post, f);
    FlatMapAppend(pre, [x] + post, f);
    assert pre + [x] + post == pre + ([x] + post);
  }

  lemma MultisetMiddle<U>(p: seq<U>, q: seq<U>, r: seq<U>)
    ensures multiset(p + q + r) == multiset(q) + multiset(p + r)
  {
  }

  /** Moving one element to the front moves its block, and so keeps the
      multiset of lines. */
  lemma FlatMapExtract<T>(pre: seq<T>, x: T, post: seq<T>, f: T -> seq<string>)
    ensures multiset(FlatMap(pre + [x] + post, f)) == multiset(f(x)) + multiset(FlatMap(pre + post, f))
  {
    FlatMapSplit(pre, x, post, f);
    MultisetMiddle(FlatMap(pre, f), f(x), FlatMap(post, f));
  }

  /** The multiset of lines depends only on the multiset of elements. */
  lemma {:induction false} FlatMapPermutation<T>(a: seq<T>, b: seq<T>, f: T -> seq<string>)
    requires multiset(a) == multiset(b)
    ensures multiset(FlatMap(a, f)) == multiset(FlatMap(b, f))
    decreases |a|
  {
    if |a| == 0 {
      assert |b| == |multiset(b)| == 0;
    } else {
      var j := MatchFirst(a, b);
      var pre, post := b[..j], b[j + 1..];
      FlatMapPermutation(a[1..], pre + post, f);
      FlatMapExtract(pre, a[0], post, f);
      FlatMapCons(a[0], a[1..], f);
      assert a == [a[0]] + a[1..];
    }
  }

  lemma {:induction false} DistinctMultiplicity(s: seq<Product>, x: Product)
    requires forall i, j :: 0 <= i < j < |s| ==> s[i] != s[j]
    ensures multiset(s)[x] == if x in s then 1 else 0
    decreases |s|
  {
    if |s| > 0 {
      assert s == [s[0]] + s[1..];
      DistinctMultiplicity(s[1..], x);
      if x == s[0] {
        assert x !in s[1..];
      }
    }
  }

  /** Two iteration orders of the same map list the same products. */
  lemma EnumerationsPermute(keys1: seq<Product>, keys2: seq<Product>, m: map<Product, int>)
    requires Enumerates(keys1, m) && Enumerates(keys2, m)
    ensures multiset(keys1) == multiset(keys2)
  {
    forall x ensures multiset(keys1)[x] == multiset(keys2)[x] {
      DistinctMultiplicity(keys1, x);
      DistinctMultiplicity(keys2, x);
    }
  }

  /** Two sequences that differ only in a middle block, whose contents agree
      as multisets, agree outside it and agree as multisets. */
  lemma SameFrame<U>(h: seq<U>, i1: seq<U>, i2: seq<U>, t: seq<U>)
    requires |i1| == |i2| && multiset(i1) == multiset(i2)
    ensures var l1, l2, k, m := h + i1 + t, h + i2 + t, |h|, |i1|;
      && |l1| == |l2|
      && l1[..k] == l2[..k] == h
      && l1[k + m..] == l2[k + m..] == t
      && l1[k..k + m] == i1 && l2[k..k + m] == i2
      && multiset(l1) == multiset(l2)
  {
  }

  /** The iteration order of the order's map is unspecified; whichever it
      is, the receipt has the same length, the same lines outside the item
      block, and the same item lines up to their order. */
  lemma OrderIndependent(r: Receipt, keys1: seq<Product>, keys2: seq<Product>, date: string)
    requires Enumerates(keys1, r.order.items) && Enumerates(keys2, r.order.items)
    ensures var l1, l2, n := ReceiptContent(r, keys1, date), ReceiptContent(r, keys2, date), |r.order.items|;
      && |l1| == |l2| == 20 + 2 * n
      && l1[..8] == l2[..8]
      && l1[8 + 2 * n..] == l2[8 + 2 * n..]
      && multiset(l1[8..8 + 2 * n]) == multiset(l2[8..8 + 2 * n])
      && multiset(l1) == multiset(l2)
  {
    var m := r.order.items;
    EnumerationSubtotal(keys1, r.order);
    EnumerationSubtotal(keys2, r.order);
    ItemLinesLength(keys1, m);
    ItemLinesLength(keys2, m);
    EnumerationsPermute(keys1, keys2, m);
    FlatMapPermutation(keys1, keys2, EntryLayout(m));
    var i1, i2 := ItemLines(keys1, m), ItemLines(keys2, m);
    SameFrame(HeaderLines(), i1, i2, TotalsLines(r) + FooterLines(date));
  }

  /** A printer: the receipt it was built for and its line buffer. */
  datatype Printer = Printer(receipt: Receipt, lines: seq<string>)

  /** `new ThermalPrinter(receipt)`: the buffer starts empty. */
  function NewPrinter(r: Receipt): Printer {
    Printer(r, [])
  }

  /** `generateReceiptContent()`: appends a full receipt to the buffer,
      keeping what was there. */
  ghost function GenerateReceiptContent(pr: Printer, keys: seq<Product>, date: string): (pr': Printer)
    requires Enumerates(keys, pr.receipt.order.items)
    ensures pr'.receipt == pr.receipt
    ensures |pr'.lines| == |pr.lines| + 20 + 2 * |pr.receipt.order.items|
    ensures pr'.lines[..|pr.lines|] == pr.lines
    ensures pr'.lines[|pr.lines|..] == ReceiptContent(pr.receipt, keys, date)
  {
    ReceiptParts(pr.receipt, keys, date);
    pr.(lines := pr.lines + ReceiptContent(pr.receipt, keys, date))
  }

  /** Page height in points for a buffer of `lineCount` lines: five lines of
      margin at 12 points a line. */
  function PageHeight(lineCount: nat): (h: nat)
    ensures h % 12 == 0 && h >= 60
    ensures h / 12 - 5 == lineCount
  {
    (lineCount + 5) * 12
  }

  /** `printReceipt(receipt, outputPath)` up to the print job: the buffer
      after generating the content, and the page height set on the paper.
      The receipt argument is not used; the printer's own receipt is. */
  ghost function PrintReceipt(pr: Printer, ignored: Receipt, keys: seq<Product>, date: string): (res: (Printer, nat))
    requires Enumerates(keys, pr.receipt.order.items)
    ensures res.0.receipt == pr.receipt
    ensures res.1 == 12 * (|pr.lines| + 25 + 2 * |pr.receipt.order.items|)
  {
    var pr' := GenerateReceiptContent(pr, keys, date);
    (pr', PageHeight(|pr'.lines|))
  }

  /** Printing from a freshly built printer lays out exactly the receipt's
      20 + 2n lines on a page of 300 + 24n points, n being the number of
      cart entries, whatever receipt is passed as argument. */
  lemma FreshPrinterPage(r: Receipt, other: Receipt, keys: seq<Product>, date: string)
    requires Enumerates(keys, r.order.items)
    ensures PrintReceipt(NewPrinter(r), other, keys, date).0.lines == ReceiptContent(r, keys, date)
    ensures PrintReceipt(NewPrinter(r), other, keys, date).1 == 300 + 24 * |r.order.items|
    ensures PrintReceipt(NewPrinter(r), other, keys, date) == PrintReceipt(NewPrinter(r), r, keys, date)
  {
    assert [] + ReceiptContent(r, keys, date) == ReceiptContent(r, keys, date);
  }
}
