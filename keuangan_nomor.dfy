/**
 * `generateNomorInvoice` of keuangan.js: the next invoice number of a variant,
 * `PREFIX/YYYY/MM/NNN`, where NNN counts the stored invoices of that variant
 * dated in the current year and month. The current year and month, and the
 * browser's reading of a stored date, are inputs.
 */
module KeuanganNomor {
  import opened Wrappers
  import opened Text
  import opened KeuanganPermissions
  import opened KeuanganInvoices

  /**
   * What `new Date(tanggal)` reports in the browser running the page: the
   * year of `getFullYear()` and the month of `getMonth() + 1`, or None for an
   * invalid date. It depends on the browser's date parser and time zone, so
   * the model takes it as an input. The dates the application stores itself,
   * such as "14 Januari 2026", are read through it like any other text.
   */
  type DateParser = string -> Option<(int, int)>

  /** The filter of `generateNomorInvoice`: same variant, dated in the given year and month. */
  predicate SameVariantAndMonth(parseDate: DateParser, inv: Invoice, jenis: string, year: nat, month: nat) {
    inv.jenisInvoice == jenis && parseDate(inv.tanggal) == Some((year as int, month as int))
  }

  /** How many invoices pass the filter. */
  function CountSameMonth(parseDate: DateParser, invoices: seq<Invoice>, jenis: string, year: nat, month: nat): (n: nat)
    ensures n <= |invoices|
  {
    if invoices == [] then 0
    else CountSameMonth(parseDate, invoices[..|invoices| - 1], jenis, year, month)
         + (if SameVariantAndMonth(parseDate, invoices[|invoices| - 1], jenis, year, month) then 1 else 0)
  }

  /** INV, INV-DP or INV-PEL by variant; any other variant gets INV. */
  function NomorPrefix(jenis: string): string {
    if jenis == "pelunasan" then "INV-PEL" else if jenis == "dp" then "INV-DP" else "INV"
  }

  /** The sequence number the next invoice of the variant gets. */
  function NextSequence(parseDate: DateParser, user: Option<User>, stored: seq<Invoice>, jenis: string, year: nat, month: nat): nat {
    CountSameMonth(parseDate, GetInvoices(user, stored), jenis, year, month) + 1
  }

  /** `generateNomorInvoice(jenisInvoice)` in the given year and month. */
  function GenerateNomorInvoice(parseDate: DateParser, user: Option<User>, stored: seq<Invoice>, jenis: string, year: nat, month: nat): string
    requires 1 <= month <= 12
  {
    Join4(NomorPrefix(jenis), NatToString(year), PadStart(NatToString(month), 2, '0'),
          PadStart(NatToString(NextSequence(parseDate, user, stored, jenis, year, month)), 3, '0'), '/')
  }

  /**
   * An invoice number splits at its slashes into the variant's prefix, the
   * year, the month in two digits and the sequence number in at least three
   * digits, and each part reads back as the value that went in.
   */
  lemma NomorInvoiceParts(parseDate: DateParser, user: Option<User>, stored: seq<Invoice>, jenis: string, year: nat, month: nat)
    requires 1 <= month <= 12
    ensures var parts := Split(GenerateNomorInvoice(parseDate, user, stored, jenis, year, month), '/');
      && |parts| == 4
      && parts[0] == NomorPrefix(jenis) && parts[0] in ["INV", "INV-DP", "INV-PEL"]
      && AllDigits(parts[1]) && ParseDigits(parts[1]) == year
      && |parts[2]| == 2 && AllDigits(parts[2]) && ParseDigits(parts[2]) == month
      && |parts[3]| >= 3 && AllDigits(parts[3]) && ParseDigits(parts[3]) == NextSequence(parseDate, user, stored, jenis, year, month)
  {
    NumberParts(jenis, year, month, NextSequence(parseDate, user, stored, jenis, year, month));
  }

  /** The same split for any sequence number `n`, apart from how it was counted. */
  lemma NumberParts(jenis: string, year: nat, month: nat, n: nat)
    requires 1 <= month <= 12
    ensures var parts := Split(Join4(NomorPrefix(jenis), NatToString(year), PadStart(NatToString(month), 2, '0'),
                                     PadStart(NatToString(n), 3, '0'), '/'), '/');
      && |parts| == 4
      && parts[0] == NomorPrefix(jenis) && parts[0] in ["INV", "INV-DP", "INV-PEL"]
      && AllDigits(parts[1]) && ParseDigits(parts[1]) == year
      && |parts[2]| == 2 && AllDigits(parts[2]) && ParseDigits(parts[2]) == month
      && |parts[3]| >= 3 && AllDigits(parts[3]) && ParseDigits(parts[3]) == n
  {
    var p, y, m, q := NomorPrefix(jenis), NatToString(year), PadStart(NatToString(month), 2, '0'), PadStart(NatToString(n), 3, '0');
    assert p in ["INV", "INV-DP", "INV-PEL"];
    NatToStringReadsBack(year);
    PadTwoDigits(month);
    SequencePart(n);
    FourParts(p, y, m, q);
  }

  /** The sequence part: at least three digits that read back as the sequence number. */
  lemma SequencePart(n: nat)
    ensures var q := PadStart(NatToString(n), 3, '0');
      |q| >= 3 && AllDigits(q) && ParseDigits(q) == n
  {
    PadStartNatReadsBack(n, 3);
    PadStartShape(NatToString(n), 3, '0');
  }

  /** The four parts of a number read back from it, whatever they hold. */
  lemma FourParts(p: string, y: string, m: string, q: string)
    requires p in ["INV", "INV-DP", "INV-PEL"]
    requires AllDigits(y) && AllDigits(m) && AllDigits(q)
    ensures var parts := Split(Join4(p, y, m, q, '/'), '/');
      |parts| == 4 && parts[0] == p && parts[1] == y && parts[2] == m && parts[3] == q
  {
    SlashedParts(p, y, m, q);
  }

  /** Four slash-free parts joined by slashes split back into those four parts. */
  lemma SlashedParts(p: string, y: string, m: string, q: string)
    requires p in ["INV", "INV-DP", "INV-PEL"]
    requires AllDigits(y) && AllDigits(m) && AllDigits(q)
    ensures Split(Join4(p, y, m, q, '/'), '/') == [p, y, m, q]
  {
    DigitsHaveNo(y, '/');
    DigitsHaveNo(m, '/');
    DigitsHaveNo(q, '/');
    assert '/' !in p;
    SplitFour(p, y, m, q, '/');
  }

  /**
   * Saving an invoice of the variant dated in the current month moves the next
   * sequence number up by exactly one; saving any other invoice leaves it.
   */
  lemma SequenceAfterSave(parseDate: DateParser, user: Option<User>, stored: seq<Invoice>, inv: Invoice, jenis: string, year: nat, month: nat)
    requires HasInvoicePermission(user, "view")
    ensures NextSequence(parseDate, user, stored + [inv], jenis, year, month)
         == NextSequence(parseDate, user, stored, jenis, year, month) + (if SameVariantAndMonth(parseDate, inv, jenis, year, month) then 1 else 0)
  {
    assert (stored + [inv])[..|stored + [inv]| - 1] == stored;
  }

  /** Without the view permission no invoice is counted, so every variant starts at 001. */
  lemma SequenceWithoutView(parseDate: DateParser, user: Option<User>, stored: seq<Invoice>, jenis: string, year: nat, month: nat)
    requires !HasInvoicePermission(user, "view")
    ensures NextSequence(parseDate, user, stored, jenis, year, month) == 1
  {
  }
}
