/**
 * laporan.php: the transaction report. The page builds its query and its
 * bound parameters from the filter fields, sums the amounts of the rows the
 * database returns, and prints amounts with `rupiah`. Today's first and last
 * day of the month (the defaults of the date fields) are inputs, and so are
 * the rows; which rows the database selects is not modelled.
 */
module Laporan {
  import opened Text
  import opened PhpValues
  import Transaksi

  // ---------------------------------------------------------------- the query

  const Base := "SELECT * FROM transaksi WHERE 1=1"
  const DateClause := " AND tanggal BETWEEN " + "?" + " AND " + "?"
  const SearchClause := " AND (deskripsi LIKE " + "?" + " OR debit LIKE " + "?" + " OR kredit LIKE " + "?" + ")"
  const Order := " ORDER BY tanggal DESC, id DESC"

  /** The filter fields of the request; an absent date takes today's month bound. */
  datatype Filter = Filter(awal: string, akhir: string, cari: string)

  function FilterOf(get: Transaksi.Fields, monthStart: string, monthEnd: string): (f: Filter)
    ensures "tanggal_awal" in get ==> f.awal == get["tanggal_awal"]
    ensures "tanggal_awal" !in get ==> f.awal == monthStart
    ensures "tanggal_akhir" in get ==> f.akhir == get["tanggal_akhir"]
    ensures "tanggal_akhir" !in get ==> f.akhir == monthEnd
    ensures f.cari == (if "cari" in get then get["cari"] else "")
  {
    Filter(Transaksi.Get(get, "tanggal_awal", monthStart),
           Transaksi.Get(get, "tanggal_akhir", monthEnd),
           Transaksi.Get(get, "cari", ""))
  }

  /** The dates restrict the report only when both are non-empty in PHP's sense. */
  predicate Dated(f: Filter) {
    !PhpEmpty(f.awal) && !PhpEmpty(f.akhir)
  }

  predicate Searched(f: Filter) {
    !PhpEmpty(f.cari)
  }

  function SearchTerm(cari: string): string {
    "%" + cari + "%"
  }

  function DatePart(f: Filter): string {
    if Dated(f) then DateClause else ""
  }

  function SearchPart(f: Filter): string {
    if Searched(f) then SearchClause else ""
  }

  /** The query text the filter calls for: the selection, the date clause, the search clause, the ordering. */
  function QueryText(f: Filter): string {
    Base + DatePart(f) + SearchPart(f) + Order
  }

  /** The parameters the filter calls for: the two dates, then the search term three times. */
  function QueryParams(f: Filter): seq<string> {
    (if Dated(f) then [f.awal, f.akhir] else [])
    + (if Searched(f) then [SearchTerm(f.cari), SearchTerm(f.cari), SearchTerm(f.cari)] else [])
  }

  /**
   * The query and the parameters the page builds, one clause and one
   * parameter at a time.
   */
  method BuildQuery(f: Filter) returns (query: string, params: seq<string>)
    ensures query == QueryText(f) && params == QueryParams(f)
  {
    query := Base;
    params := [];
    if !PhpEmpty(f.awal) && !PhpEmpty(f.akhir) {
      query := query + DateClause;
      params := params + [f.awal];
      params := params + [f.akhir];
    }
    assert query == Base + DatePart(f);
    if !PhpEmpty(f.cari) {
      var term := SearchTerm(f.cari);
      query := query + SearchClause;
      params := params + [term];
      params := params + [term];
      params := params + [term];
    }
    assert query == Base + DatePart(f) + SearchPart(f);
    query := query + Order;
  }

  /** The query holds exactly one placeholder per bound parameter. */
  lemma PlaceholdersMatchParams(f: Filter)
    ensures CountChar(QueryText(f), '?') == |QueryParams(f)|
  {
    ClausePlaceholders();
    PieceCounts(Base, DatePart(f), SearchPart(f), Order, Dated(f), Searched(f));
    ParamCount(f);
  }

  lemma ParamCount(f: Filter)
    ensures |QueryParams(f)| == (if Dated(f) then 2 else 0) + (if Searched(f) then 3 else 0)
  {
  }

  lemma PieceCounts(b: string, d: string, s: string, o: string, dated: bool, searched: bool)
    requires CountChar(b, '?') == 0 && CountChar(o, '?') == 0
    requires dated ==> CountChar(d, '?') == 2
    requires !dated ==> d == ""
    requires searched ==> CountChar(s, '?') == 3
    requires !searched ==> s == ""
    ensures CountChar(b + d + s + o, '?') == (if dated then 2 else 0) + (if searched then 3 else 0)
  {
    CountCharConcat(b, d, '?');
    CountCharConcat(b + d, s, '?');
    CountCharConcat(b + d + s, o, '?');
  }

  /** How many placeholders each piece of the query holds. */
  lemma ClausePlaceholders()
    ensures CountChar(Base, '?') == 0 && CountChar(Order, '?') == 0
    ensures CountChar(DateClause, '?') == 2 && CountChar(SearchClause, '?') == 3
  {
    BasePlain();
    OrderPlain();
    DateClauseCount();
    SearchClauseCount();
  }

  lemma BasePlain()
    ensures CountChar(Base, '?') == 0
  {
    assert forall i :: 0 <= i < |Base| ==> Base[i] != '?';
    CountCharAbsent(Base, '?');
  }

  lemma OrderPlain()
    ensures CountChar(Order, '?') == 0
  {
    assert forall i :: 0 <= i < |Order| ==> Order[i] != '?';
    CountCharAbsent(Order, '?');
  }

  lemma DateClauseCount()
    ensures CountChar(DateClause, '?') == 2
  {
    var a, b := " AND tanggal BETWEEN ", " AND ";
    assert forall i :: 0 <= i < |a| ==> a[i] != '?';
    assert forall i :: 0 <= i < |b| ==> b[i] != '?';
    TwoPlaceholders(a, b);
  }

  lemma SearchClauseCount()
    ensures CountChar(SearchClause, '?') == 3
  {
    var a, b, c := " AND (deskripsi LIKE ", " OR debit LIKE ", " OR kredit LIKE ";
    assert forall i :: 0 <= i < |a| ==> a[i] != '?';
    assert forall i :: 0 <= i < |b| ==> b[i] != '?';
    assert forall i :: 0 <= i < |c| ==> c[i] != '?';
    ThreePlaceholders(a, b, c, ")");
  }

  lemma TwoPlaceholders(a: string, b: string)
    requires forall i :: 0 <= i < |a| ==> a[i] != '?'
    requires forall i :: 0 <= i < |b| ==> b[i] != '?'
    ensures CountChar(a + "?" + b + "?", '?') == 2
  {
    CountCharAbsent(a, '?');
    CountCharAbsent(b, '?');
    CountCharConcat(a, "?", '?');
    CountCharConcat(a + "?", b, '?');
    CountCharConcat(a + "?" + b, "?", '?');
  }

  lemma ThreePlaceholders(a: string, b: string, c: string, e: string)
    requires forall i :: 0 <= i < |a| ==> a[i] != '?'
    requires forall i :: 0 <= i < |b| ==> b[i] != '?'
    requires forall i :: 0 <= i < |c| ==> c[i] != '?'
    requires forall i :: 0 <= i < |e| ==> e[i] != '?'
    ensures CountChar(a + "?" + b + "?" + c + "?" + e, '?') == 3
  {
    TwoPlaceholders(a, b);
    CountCharAbsent(c, '?');
    CountCharAbsent(e, '?');
    var ab := a + "?" + b + "?";
    CountCharConcat(ab, c, '?');
    CountCharConcat(ab + c, "?", '?');
    CountCharConcat(ab + c + "?", e, '?');
  }

  /**
   * The query always opens with the base selection and closes with the
   * ordering; the dates are the first two parameters when the report is dated,
   * the search term the last three when it is searched, and nothing else is
   * bound.
   */
  lemma QueryShape(f: Filter)
    ensures var q := QueryText(f);
      |q| >= |Base| + |Order| && q[..|Base|] == Base && q[|q| - |Order|..] == Order
    ensures |QueryParams(f)| == (if Dated(f) then 2 else 0) + (if Searched(f) then 3 else 0)
    ensures Dated(f) ==> QueryParams(f)[..2] == [f.awal, f.akhir]
    ensures Searched(f) ==> forall i :: |QueryParams(f)| - 3 <= i < |QueryParams(f)| ==> QueryParams(f)[i] == SearchTerm(f.cari)
  {
    Framed(Base, DatePart(f), SearchPart(f), Order);
  }

  lemma Framed(a: string, b: string, c: string, e: string)
    ensures |a + b + c + e| >= |a| + |e| && (a + b + c + e)[..|a|] == a && (a + b + c + e)[|a + b + c + e| - |e|..] == e
  {
    assert a + b + c + e == a + (b + c + e);
    assert (a + b + c + e)[..|a|] == a;
  }

  // ---------------------------------------------------------------- the totals

  /** A row of the report; `nominal` as the number PHP adds up. */
  datatype TransaksiRow = TransaksiRow(tanggal: string, deskripsi: string, debit: string, kredit: string, nominal: real)

  function Sum(rows: seq<TransaksiRow>): real {
    if rows == [] then 0.0 else Sum(rows[..|rows| - 1]) + rows[|rows| - 1].nominal
  }

  /** The foreach over the rows: both totals add up every row's amount, so they are always equal. */
  method Totals(rows: seq<TransaksiRow>) returns (totalDebit: real, totalKredit: real)
    ensures totalDebit == Sum(rows) && totalKredit == Sum(rows)
    ensures totalDebit == totalKredit
  {
    totalDebit, totalKredit := 0.0, 0.0;
    var i := 0;
    while i < |rows|
      invariant i <= |rows|
      invariant totalDebit == Sum(rows[..i]) && totalKredit == Sum(rows[..i])
    {
      assert rows[..i + 1][..i] == rows[..i];
      totalDebit := totalDebit + rows[i].nominal;
      totalKredit := totalKredit + rows[i].nominal;
      i := i + 1;
    }
    assert rows[..i] == rows;
  }

  /** The total of two runs of rows is the sum of their totals. */
  lemma {:induction false} SumConcat(a: seq<TransaksiRow>, b: seq<TransaksiRow>)
    ensures Sum(a + b) == Sum(a) + Sum(b)
    decreases |b|
  {
    if b == [] {
      assert a + b == a;
    } else {
      var init := b[..|b| - 1];
      assert (a + b)[..|a + b| - 1] == a + init;
      SumConcat(a, init);
    }
  }

  /** No negative amount gives no negative total, and the total bounds every single amount. */
  lemma {:induction false} SumBounds(rows: seq<TransaksiRow>)
    requires forall i :: 0 <= i < |rows| ==> rows[i].nominal >= 0.0
    ensures Sum(rows) >= 0.0
    ensures forall i :: 0 <= i < |rows| ==> rows[i].nominal <= Sum(rows)
  {
    if rows != [] {
      var init := rows[..|rows| - 1];
      assert forall i :: 0 <= i < |init| ==> init[i] == rows[i];
      SumBounds(init);
    }
  }

  // ---------------------------------------------------------------- rupiah

  /** `number_format(x, 0)` rounds half away from zero. */
  function Round(x: real): int {
    if x >= 0.0 then (x + 0.5).Floor else -((-x + 0.5).Floor)
  }

  /** The whole number with "." between groups of three digits. */
  function Grouped(n: nat): string {
    if n < 1000 then NatToString(n) else Grouped(n / 1000) + "." + PadStart(NatToString(n % 1000), 3, '0')
  }

  /** `rupiah($angka)`: "Rp ", a minus sign for a negative amount, and the rounded amount grouped by thousands. */
  function Rupiah(x: real): string {
    var n := Round(x);
    "Rp " + (if n < 0 then "-" else "") + Grouped(if n < 0 then -n else n)
  }

  /** The text with its thousands separators taken out. */
  function Ungroup(s: string): string {
    if s == [] then [] else (if s[0] == '.' then [] else [s[0]]) + Ungroup(s[1..])
  }

  lemma {:induction false} UngroupConcat(a: string, b: string)
    ensures Ungroup(a + b) == Ungroup(a) + Ungroup(b)
  {
    if a == [] {
      assert a + b == b;
    } else {
      assert (a + b)[0] == a[0] && (a + b)[1..] == a[1..] + b;
      UngroupConcat(a[1..], b);
    }
  }

  lemma {:induction false} UngroupDigits(s: string)
    requires AllDigits(s)
    ensures Ungroup(s) == s
  {
    if s != [] {
      UngroupDigits(s[1..]);
    }
  }

  /** A digit string followed by `b` reads as its value shifted by the length of `b`. */
  lemma {:induction false} ParseDigitsConcat(a: string, b: string)
    requires AllDigits(a) && AllDigits(b)
    ensures AllDigits(a + b) && ParseDigits(a + b) == ParseDigits(a) * Pow10(|b|) + ParseDigits(b)
    decreases |b|
  {
    assert AllDigits(a + b);
    if b == [] {
      assert a + b == a;
    } else {
      var init, last := b[..|b| - 1], b[|b| - 1];
      assert (a + b)[..|a + b| - 1] == a + init;
      assert (a + b)[|a + b| - 1] == last;
      ParseDigitsConcat(a, init);
      assert ParseDigits(a + b) == 10 * ParseDigits(a + init) + DigitValue(last);
      assert ParseDigits(b) == 10 * ParseDigits(init) + DigitValue(last);
      assert Pow10(|b|) == 10 * Pow10(|init|);
      ShiftStep(ParseDigits(a), Pow10(|init|), ParseDigits(init), DigitValue(last));
    }
  }

  lemma ShiftStep(v: nat, p: nat, x: nat, d: nat)
    ensures 10 * (v * p + x) + d == v * (10 * p) + (10 * x + d)
  {
  }

  lemma NatToStringBelowThousand(n: nat)
    requires n < 1000
    ensures |NatToString(n)| <= 3
  {
    if n >= 10 {
      NatToStringBelowHundred(n / 10);
    }
  }

  /** The last group of a grouped number: three digits that read back as `n % 1000`. */
  lemma LowGroup(n: nat)
    ensures var g := PadStart(NatToString(n % 1000), 3, '0');
      |g| == 3 && AllDigits(g) && ParseDigits(g) == n % 1000
  {
    NatToStringBelowThousand(n % 1000);
    PadStartShape(NatToString(n % 1000), 3, '0');
    PadStartNatReadsBack(n % 1000, 3);
  }

  /** Taking the separators out of a grouped number leaves digits that read back as the number. */
  lemma {:induction false} GroupedReadsBack(n: nat)
    ensures AllDigits(Ungroup(Grouped(n))) && ParseDigits(Ungroup(Grouped(n))) == n
    ensures Grouped(n) != [] && IsDigit(Grouped(n)[0])
  {
    if n < 1000 {
      NatToStringReadsBack(n);
      UngroupDigits(NatToString(n));
    } else {
      var high := Grouped(n / 1000);
      var low := PadStart(NatToString(n % 1000), 3, '0');
      GroupedReadsBack(n / 1000);
      LowGroup(n);
      UngroupConcat(high, ".");
      UngroupConcat(high + ".", low);
      UngroupDigits(low);
      assert Ungroup(Grouped(n)) == Ungroup(high) + low;
      ParseDigitsConcat(Ungroup(high), low);
      assert Pow10(3) == 1000;
      assert (high + "." + low)[0] == high[0];
    }
  }

  /** A grouped number has a separator exactly when it has four digits or more, and then its last group has three digits. */
  lemma GroupedShape(n: nat)
    ensures n < 1000 ==> '.' !in Grouped(n)
    ensures n >= 1000 ==> var g := Grouped(n); |g| >= 5 && g[|g| - 4] == '.' && AllDigits(g[|g| - 3..])
  {
    if n < 1000 {
      NatToStringReadsBack(n);
      DigitsHaveNo(NatToString(n), '.');
    } else {
      LowGroup(n);
      GroupedReadsBack(n / 1000);
      var g := Grouped(n);
      var low := PadStart(NatToString(n % 1000), 3, '0');
      assert g[|g| - 3..] == low;
    }
  }

  /**
   * `rupiah` prints "Rp ", then a minus sign exactly for a negative rounded
   * amount, then digits with "." separators that read back as the rounded
   * amount's size. A whole amount is printed without change of value.
   */
  lemma RupiahReadsBack(x: real)
    ensures var r := Rupiah(x); var n := Round(x);
      && |r| > 3 && r[..3] == "Rp "
      && (r[3] == '-' <==> n < 0)
      && var digits := Ungroup(r[(if n < 0 then 4 else 3)..]);
         AllDigits(digits) && ParseDigits(digits) == (if n < 0 then -n else n)
  {
    var n := Round(x);
    var m := if n < 0 then -n else n;
    GroupedReadsBack(m);
    var r := Rupiah(x);
    if n < 0 {
      assert r == "Rp -" + Grouped(m);
      assert r[4..] == Grouped(m);
    } else {
      assert r == "Rp " + Grouped(m);
      assert r[3..] == Grouped(m);
    }
  }

  /** Whole amounts are not rounded. */
  lemma RoundWhole(n: int)
    ensures Round(n as real) == n
  {
  }
}
