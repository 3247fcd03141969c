/**
 * The records of keuangan.js and the pure rules that derive them: the fields a
 * save computes for each invoice variant, the status transition, the
 * double-entry journal postings of `simpanKeJurnal`, the report filter of
 * `updateLaporanKeuanganAfterDelete` and the capped activity log of
 * `logActivity`.
 *
 * A field that the original leaves `undefined` is the empty string or 0 here;
 * the original only ever tests such fields for truthiness, and both are falsy.
 */
module KeuanganInvoices {
  import opened Wrappers
  import opened KeuanganPermissions

  /** A line item; only its `total` takes part in the rules (`item.total || 0`). */
  datatype Item = Item(description: string, total: Option<int>)

  /** An invoice chosen for settlement (`dpInvoice` / `regularInvoice`): the fields a settlement reads from it. */
  datatype InvoiceChoice = InvoiceChoice(noInvoice: string, customer: string, total: Option<int>, dp: Option<int>)

  /** The `invoiceData` object a page hands to a save function. A missing `items` list is the empty list. */
  datatype InvoiceForm = InvoiceForm(
    noInvoice: string, id: string, tanggal: string, customer: string, items: seq<Item>,
    dp: int, pelunasanAmount: int,
    dpInvoice: Option<InvoiceChoice>, regularInvoice: Option<InvoiceChoice>)

  /** One entry of `pelunasanInvoices`: an invoice a settlement closes. */
  datatype SettledRef = SettledRef(noInvoice: string, jenis: string, customer: string, amount: int, dpAmount: int)

  /** A stored invoice (an element of `dataPenjualan`). */
  datatype Invoice = Invoice(
    noInvoice: string, id: string, tanggal: string, customer: string, items: seq<Item>,
    jenisInvoice: string, total: int, dp: int, sisa: int,
    status: string, tanggalPelunasan: string,
    createdBy: string, createdByRole: string,
    totalTagihan: int, totalDP: int, pelunasanInvoices: seq<SettledRef>)

  /** A posting of `dataJurnal`. */
  datatype JournalEntry = JournalEntry(
    tanggal: string, akun: string, keterangan: string, debit: int, kredit: int,
    fromPenjualan: bool, noInvoice: string, jenisTransaksi: string)

  /** An entry of `laporanKeuangan`; `invoiceId` is "" when the entry has none. */
  datatype LaporanEntry = LaporanEntry(noInvoice: string, invoiceId: string, keterangan: string, jumlah: int)

  /** An entry of the `activities` log. */
  datatype Activity = Activity(timestamp: string, user: string, role: string, activity: string)

  const Lunas: string := "Lunas"
  const BelumLunas: string := "Belum Lunas"

  /** The cap of the `activities` log. */
  const MaxActivities: nat := 1000

  // ---------------------------------------------------------------------------
  // Totals

  /** `item.total || 0`. */
  function ItemTotal(item: Item): int {
    match item.total
    case Some(t) => t
    case None => 0
  }

  /** The sum of the item totals, accumulated from the first item to the last. */
  function ItemsTotal(items: seq<Item>): int {
    if items == [] then 0 else ItemsTotal(items[..|items| - 1]) + ItemTotal(items[|items| - 1])
  }

  lemma {:induction false} ItemsTotalConcat(a: seq<Item>, b: seq<Item>)
    ensures ItemsTotal(a + b) == ItemsTotal(a) + ItemsTotal(b)
    decreases |b|
  {
    if b == [] {
      assert a + b == a;
    } else {
      assert (a + b)[..|a + b| - 1] == a + b[..|b| - 1];
      ItemsTotalConcat(a, b[..|b| - 1]);
    }
  }

  /** The `forEach` loop of the two item-based saves: `total += item.total || 0`. */
  method SumItemTotals(items: seq<Item>) returns (total: int)
    ensures total == ItemsTotal(items)
  {
    total := 0;
    var i := 0;
    while i < |items|
      invariant 0 <= i <= |items|
      invariant total == ItemsTotal(items[..i])
    {
      assert items[..i + 1][..i] == items[..i];
      total := total + ItemTotal(items[i]);
      i := i + 1;
    }
    assert items[..i] == items;
  }

  // ---------------------------------------------------------------------------
  // The three save variants

  /** The common validation of the item-based saves: an invoice number and at least one item. */
  predicate FormComplete(form: InvoiceForm) {
    form.noInvoice != "" && |form.items| > 0
  }

  /**
   * The invariant every stored invoice keeps: an item-based invoice totals its
   * items, a down-payment invoice's balance is its total less the down payment,
   * and an invoice is settled exactly when it carries a settlement date.
   */
  predicate WellFormed(inv: Invoice) {
    && (inv.jenisInvoice != "pelunasan" ==> inv.total == ItemsTotal(inv.items))
    && (inv.jenisInvoice == "dp" ==> inv.sisa == inv.total - inv.dp)
    && (inv.status == Lunas <==> inv.tanggalPelunasan != "")
  }

  /** The invoice `simpanInvoiceRegular` stores for a complete form whose items add up to `total`. */
  function RegularInvoice(form: InvoiceForm, user: User, total: int): (inv: Invoice)
    requires total == ItemsTotal(form.items)
    ensures WellFormed(inv)
    ensures inv.jenisInvoice == "regular" && inv.status == BelumLunas && inv.tanggalPelunasan == ""
    ensures inv.noInvoice == form.noInvoice && inv.items == form.items
    ensures inv.createdBy == user.username && inv.createdByRole == user.role
  {
    Invoice(form.noInvoice, form.id, form.tanggal, form.customer, form.items,
            "regular", total, form.dp, 0,
            BelumLunas, "", user.username, user.role, 0, 0, [])
  }

  /** The invoice `simpanInvoiceDP` stores for a complete form whose items add up to `total`. */
  function DPInvoice(form: InvoiceForm, user: User, total: int): (inv: Invoice)
    requires total == ItemsTotal(form.items)
    ensures WellFormed(inv)
    ensures inv.jenisInvoice == "dp" && inv.status == BelumLunas && inv.tanggalPelunasan == ""
    ensures inv.dp == form.dp && inv.total - inv.sisa == form.dp
    ensures inv.noInvoice == form.noInvoice && inv.items == form.items
    ensures inv.createdBy == user.username && inv.createdByRole == user.role
  {
    Invoice(form.noInvoice, form.id, form.tanggal, form.customer, form.items,
            "dp", total, form.dp, total - form.dp,
            BelumLunas, "", user.username, user.role, 0, 0, [])
  }

  /** The validation of `simpanInvoicePelunasan`: a number, a positive amount, and something to settle. */
  predicate PelunasanComplete(form: InvoiceForm) {
    form.noInvoice != "" && form.pelunasanAmount > 0 && (form.dpInvoice.Some? || form.regularInvoice.Some?)
  }

  function OrZero(x: Option<int>): int {
    match x
    case Some(v) => v
    case None => 0
  }

  /** `pelunasanInvoices`: one entry per chosen invoice, the down-payment one first. */
  function SettledRefs(form: InvoiceForm): (refs: seq<SettledRef>)
    ensures |refs| == (if form.dpInvoice.Some? then 1 else 0) + (if form.regularInvoice.Some? then 1 else 0)
    ensures form.dpInvoice.Some? ==>
      refs[0] == SettledRef(form.dpInvoice.value.noInvoice, "dp", form.dpInvoice.value.customer,
                            OrZero(form.dpInvoice.value.total), OrZero(form.dpInvoice.value.dp))
    ensures form.regularInvoice.Some? ==>
      refs[|refs| - 1] == SettledRef(form.regularInvoice.value.noInvoice, "regular", form.regularInvoice.value.customer,
                                     OrZero(form.regularInvoice.value.total), 0)
  {
    (match form.dpInvoice
     case Some(d) => [SettledRef(d.noInvoice, "dp", d.customer, OrZero(d.total), OrZero(d.dp))]
     case None => [])
    + (match form.regularInvoice
       case Some(r) => [SettledRef(r.noInvoice, "regular", r.customer, OrZero(r.total), 0)]
       case None => [])
  }

  /** The invoice `simpanInvoicePelunasan` stores; `today` is the settlement date in its long local form. */
  function PelunasanInvoice(form: InvoiceForm, user: User, today: string): (inv: Invoice)
    requires today != ""
    ensures WellFormed(inv)
    ensures inv.jenisInvoice == "pelunasan" && inv.status == Lunas && inv.tanggalPelunasan == today
    ensures inv.total == form.pelunasanAmount
    ensures inv.totalTagihan ==
      (match form.dpInvoice case Some(d) => OrZero(d.total) case None => 0)
      + (match form.regularInvoice case Some(r) => OrZero(r.total) case None => 0)
    ensures inv.totalDP == (match form.dpInvoice case Some(d) => OrZero(d.dp) case None => 0)
    ensures inv.pelunasanInvoices == SettledRefs(form)
    ensures inv.noInvoice == form.noInvoice && inv.createdBy == user.username
  {
    var tagihanDP := match form.dpInvoice case Some(d) => OrZero(d.total) case None => 0;
    var totalDP := match form.dpInvoice case Some(d) => OrZero(d.dp) case None => 0;
    var tagihanRegular := match form.regularInvoice case Some(r) => OrZero(r.total) case None => 0;
    Invoice(form.noInvoice, form.id, form.tanggal, form.customer, form.items,
            "pelunasan", form.pelunasanAmount, form.dp, 0,
            Lunas, today, user.username, user.role, tagihanDP + tagihanRegular, totalDP, SettledRefs(form))
  }

  // ---------------------------------------------------------------------------
  // Status

  /** `invoices.findIndex(inv => inv.noInvoice === noInvoice)`. */
  function FindIndex(invoices: seq<Invoice>, noInvoice: string): (i: int)
    ensures -1 <= i < |invoices|
    ensures i >= 0 ==> invoices[i].noInvoice == noInvoice
    ensures forall j :: 0 <= j < |invoices| && (i == -1 || j < i) ==> invoices[j].noInvoice != noInvoice
  {
    if invoices == [] then -1
    else if invoices[0].noInvoice == noInvoice then 0
    else
      var k := FindIndex(invoices[1..], noInvoice);
      if k == -1 then -1 else k + 1
  }

  /** The effect of `updateStatusInvoice` on the invoice it finds; `today` is the ISO date. */
  function WithStatus(inv: Invoice, status: string, today: string): Invoice {
    if status == Lunas then
      inv.(status := status, tanggalPelunasan := if inv.tanggalPelunasan == "" then today else inv.tanggalPelunasan)
    else
      inv.(status := status, tanggalPelunasan := "")
  }

  /**
   * A status update keeps an invoice well formed whatever the new status is,
   * touches nothing but the status and the settlement date, and never
   * overwrites a settlement date that is already there.
   */
  lemma StatusUpdateKeepsInvoice(inv: Invoice, status: string, today: string)
    requires WellFormed(inv) && today != ""
    ensures WellFormed(WithStatus(inv, status, today))
    ensures WithStatus(inv, status, today) == inv.(status := status, tanggalPelunasan := WithStatus(inv, status, today).tanggalPelunasan)
    ensures status == Lunas && inv.tanggalPelunasan != "" ==> WithStatus(inv, status, today).tanggalPelunasan == inv.tanggalPelunasan
    ensures status != Lunas ==> WithStatus(inv, status, today).tanggalPelunasan == ""
  {
  }

  /** Marking an invoice settled twice keeps the first settlement date. */
  lemma SettleTwiceKeepsFirstDate(inv: Invoice, first: string, second: string)
    requires first != ""
    ensures WithStatus(WithStatus(inv, Lunas, first), Lunas, second) == WithStatus(inv, Lunas, first)
  {
  }

  /** The invoice list after `updateStatusInvoice(noInvoice, status)`: only the first match changes. */
  function ApplyStatus(invoices: seq<Invoice>, noInvoice: string, status: string, today: string): (r: seq<Invoice>)
    ensures |r| == |invoices|
    ensures forall j :: 0 <= j < |r| && j != FindIndex(invoices, noInvoice) ==> r[j] == invoices[j]
    ensures FindIndex(invoices, noInvoice) >= 0 ==>
      r[FindIndex(invoices, noInvoice)] == WithStatus(invoices[FindIndex(invoices, noInvoice)], status, today)
  {
    var i := FindIndex(invoices, noInvoice);
    if i == -1 then invoices else invoices[i := WithStatus(invoices[i], status, today)]
  }

  /** The activity text `updateStatusInvoice` logs. */
  function StatusText(status: string, noInvoice: string): string {
    "Update status invoice menjadi " + status + ": " + noInvoice
  }

  /** The `activities` log after one `updateStatusInvoice` call that passed the permission check. */
  function StatusLog(log: seq<Activity>, invoices: seq<Invoice>, noInvoice: string, status: string,
                     user: Option<User>, now: string): seq<Activity>
  {
    if FindIndex(invoices, noInvoice) >= 0 then ActivitiesAfterLog(log, user, StatusText(status, noInvoice), now) else log
  }

  /** The invoice list after a settlement marks its chosen invoices settled, the down-payment one first. */
  function SettleChosen(invoices: seq<Invoice>, form: InvoiceForm, today: string): seq<Invoice> {
    var afterDP := match form.dpInvoice
      case Some(d) => ApplyStatus(invoices, d.noInvoice, Lunas, today)
      case None => invoices;
    match form.regularInvoice
    case Some(r) => ApplyStatus(afterDP, r.noInvoice, Lunas, today)
    case None => afterDP
  }

  /** The `activities` log entries of the status updates a settlement makes. */
  function SettleLog(log: seq<Activity>, invoices: seq<Invoice>, form: InvoiceForm, user: Option<User>,
                     now: string, today: string): seq<Activity>
  {
    var afterDP := match form.dpInvoice
      case Some(d) => StatusLog(log, invoices, d.noInvoice, Lunas, user, now)
      case None => log;
    var listAfterDP := match form.dpInvoice
      case Some(d) => ApplyStatus(invoices, d.noInvoice, Lunas, today)
      case None => invoices;
    match form.regularInvoice
    case Some(r) => StatusLog(afterDP, listAfterDP, r.noInvoice, Lunas, user, now)
    case None => afterDP
  }

  /** A status update changes no invoice number, so later look-ups find the same positions. */
  lemma ApplyStatusKeepsNumbers(invoices: seq<Invoice>, noInvoice: string, status: string, today: string, other: string)
    ensures FindIndex(ApplyStatus(invoices, noInvoice, status, today), other) == FindIndex(invoices, other)
  {
    var r := ApplyStatus(invoices, noInvoice, status, today);
    assert forall j :: 0 <= j < |r| ==> r[j].noInvoice == invoices[j].noInvoice;
    FindIndexSameNumbers(invoices, r, other);
  }

  lemma {:induction false} FindIndexSameNumbers(a: seq<Invoice>, b: seq<Invoice>, no: string)
    requires |a| == |b| && forall j :: 0 <= j < |a| ==> a[j].noInvoice == b[j].noInvoice
    ensures FindIndex(a, no) == FindIndex(b, no)
  {
    if a != [] && a[0].noInvoice != no {
      FindIndexSameNumbers(a[1..], b[1..], no);
    }
  }

  /**
   * After a settlement, the first stored invoice carrying each chosen number is
   * settled, every other invoice's status is either unchanged or settled, and
   * no invoice is added or removed.
   */
  lemma SettleChosenMarksLunas(invoices: seq<Invoice>, form: InvoiceForm, today: string)
    ensures |SettleChosen(invoices, form, today)| == |invoices|
    ensures form.dpInvoice.Some? && FindIndex(invoices, form.dpInvoice.value.noInvoice) >= 0 ==>
      SettleChosen(invoices, form, today)[FindIndex(invoices, form.dpInvoice.value.noInvoice)].status == Lunas
    ensures form.regularInvoice.Some? && FindIndex(invoices, form.regularInvoice.value.noInvoice) >= 0 ==>
      SettleChosen(invoices, form, today)[FindIndex(invoices, form.regularInvoice.value.noInvoice)].status == Lunas
    ensures forall j :: 0 <= j < |invoices| ==>
      SettleChosen(invoices, form, today)[j].status in {invoices[j].status, Lunas}
  {
    if form.dpInvoice.Some? && form.regularInvoice.Some? {
      ApplyStatusKeepsNumbers(invoices, form.dpInvoice.value.noInvoice, Lunas, today, form.regularInvoice.value.noInvoice);
    }
  }

  predicate AllWellFormed(invoices: seq<Invoice>) {
    forall j :: 0 <= j < |invoices| ==> WellFormed(invoices[j])
  }

  /** A status update keeps a well-formed invoice list well formed. */
  lemma ApplyStatusKeepsWellFormed(invoices: seq<Invoice>, noInvoice: string, status: string, today: string)
    requires AllWellFormed(invoices) && today != ""
    ensures AllWellFormed(ApplyStatus(invoices, noInvoice, status, today))
  {
    var i := FindIndex(invoices, noInvoice);
    if i >= 0 {
      StatusUpdateKeepsInvoice(invoices[i], status, today);
    }
  }

  // ---------------------------------------------------------------------------
  // Deletion

  /** `invoices.splice(index, 1)`. */
  function RemoveAt(invoices: seq<Invoice>, index: nat): (r: seq<Invoice>)
    requires index < |invoices|
    ensures |r| == |invoices| - 1
    ensures forall j :: 0 <= j < index ==> r[j] == invoices[j]
    ensures forall j :: index <= j < |r| ==> r[j] == invoices[j + 1]
    ensures multiset(r) + multiset{invoices[index]} == multiset(invoices)
  {
    assert invoices == invoices[..index] + [invoices[index]] + invoices[index + 1..];
    invoices[..index] + invoices[index + 1..]
  }

  /** The filter predicate of `updateLaporanKeuanganAfterDelete`: which report entries survive a deletion. */
  predicate KeepsEntry(entry: LaporanEntry, deleted: Invoice) {
    entry.noInvoice != deleted.noInvoice || (entry.invoiceId != "" && entry.invoiceId != deleted.id)
  }

  /** `laporanKeuangan.filter(...)`: the surviving entries, in their order. */
  function FilterLaporan(entries: seq<LaporanEntry>, deleted: Invoice): (r: seq<LaporanEntry>)
    ensures |r| <= |entries|
    ensures forall e :: e in r <==> e in entries && KeepsEntry(e, deleted)
  {
    if entries == [] then []
    else
      var rest := FilterLaporan(entries[1..], deleted);
      if KeepsEntry(entries[0], deleted) then [entries[0]] + rest else rest
  }

  /** Each kept entry survives as many times as it occurred, each dropped one not at all. */
  lemma {:induction false} FilterLaporanCounts(entries: seq<LaporanEntry>, deleted: Invoice)
    ensures forall e :: multiset(FilterLaporan(entries, deleted))[e] == if KeepsEntry(e, deleted) then multiset(entries)[e] else 0
  {
    if entries != [] {
      FilterLaporanCounts(entries[1..], deleted);
      assert entries == [entries[0]] + entries[1..];
    }
  }

  /** Filtering works entry by entry: filtering two runs of entries one after the other is filtering each. */
  lemma {:induction false} FilterLaporanConcat(a: seq<LaporanEntry>, b: seq<LaporanEntry>, deleted: Invoice)
    ensures FilterLaporan(a + b, deleted) == FilterLaporan(a, deleted) + FilterLaporan(b, deleted)
  {
    if a != [] {
      assert (a + b)[1..] == a[1..] + b;
      FilterLaporanConcat(a[1..], b, deleted);
    } else {
      assert a + b == b;
    }
  }

  /**
   * An entry is dropped exactly when it carries the deleted invoice's number
   * and either has no invoice id or has the deleted invoice's id.
   */
  lemma FilterLaporanDrops(entries: seq<LaporanEntry>, deleted: Invoice, e: LaporanEntry)
    requires e in entries
    ensures e !in FilterLaporan(entries, deleted) <==>
      e.noInvoice == deleted.noInvoice && (e.invoiceId == "" || e.invoiceId == deleted.id)
  {
  }

  // ---------------------------------------------------------------------------
  // Journal

  function SumDebit(entries: seq<JournalEntry>): int {
    if entries == [] then 0 else SumDebit(entries[..|entries| - 1]) + entries[|entries| - 1].debit
  }

  function SumKredit(entries: seq<JournalEntry>): int {
    if entries == [] then 0 else SumKredit(entries[..|entries| - 1]) + entries[|entries| - 1].kredit
  }

  lemma {:induction false} SumsConcat(a: seq<JournalEntry>, b: seq<JournalEntry>)
    ensures SumDebit(a + b) == SumDebit(a) + SumDebit(b)
    ensures SumKredit(a + b) == SumKredit(a) + SumKredit(b)
    decreases |b|
  {
    if b == [] {
      assert a + b == a;
    } else {
      assert (a + b)[..|a + b| - 1] == a + b[..|b| - 1];
      SumsConcat(a, b[..|b| - 1]);
    }
  }

  lemma SumsOfPair(a: JournalEntry, b: JournalEntry)
    ensures SumDebit([a, b]) == a.debit + b.debit && SumKredit([a, b]) == a.kredit + b.kredit
  {
    var one, two := [a], [a, b];
    assert one[..|one| - 1] == [];
    assert SumDebit(one) == a.debit && SumKredit(one) == a.kredit;
    assert two[..|two| - 1] == one;
  }

  /** Whether `simpanKeJurnal` adds the down-payment pair for this invoice. */
  predicate PostsDownPayment(inv: Invoice) {
    inv.jenisInvoice == "dp" && inv.dp > 0
  }

  /**
   * The postings `simpanKeJurnal` appends for an invoice: Piutang Usaha /
   * Pendapatan Jasa for the invoice total, then Kas / Uang Muka Pelanggan for
   * the down payment of a down-payment invoice.
   */
  function JournalEntries(inv: Invoice): (r: seq<JournalEntry>)
    ensures |r| == if PostsDownPayment(inv) then 4 else 2
    ensures SumDebit(r) == SumKredit(r)
    ensures SumDebit(r) == inv.total + (if PostsDownPayment(inv) then inv.dp else 0)
    ensures forall k :: 0 <= k < |r| ==>
      r[k].noInvoice == inv.noInvoice && r[k].tanggal == inv.tanggal && r[k].fromPenjualan
      && (r[k].debit == 0 || r[k].kredit == 0)
    ensures forall k :: 0 <= k < |r| / 2 ==> r[2 * k].debit == r[2 * k + 1].kredit
  {
    var sales := "Penjualan Invoice " + inv.noInvoice + " - " + inv.customer;
    var pair := [JournalEntry(inv.tanggal, "Piutang Usaha", sales, inv.total, 0, true, inv.noInvoice, inv.jenisInvoice),
                 JournalEntry(inv.tanggal, "Pendapatan Jasa", sales, 0, inv.total, true, inv.noInvoice, inv.jenisInvoice)];
    SumsOfPair(pair[0], pair[1]);
    if PostsDownPayment(inv) then
      var dpText := "DP Invoice " + inv.noInvoice + " - " + inv.customer;
      var dpPair := [JournalEntry(inv.tanggal, "Kas", dpText, inv.dp, 0, true, inv.noInvoice, "dp"),
                     JournalEntry(inv.tanggal, "Uang Muka Pelanggan", dpText, 0, inv.dp, true, inv.noInvoice, "dp")];
      SumsOfPair(dpPair[0], dpPair[1]);
      SumsConcat(pair, dpPair);
      pair + dpPair
    else
      pair
  }

  /** Posting an invoice keeps a balanced journal balanced and leaves earlier postings in place. */
  lemma PostingKeepsJournalBalanced(journal: seq<JournalEntry>, inv: Invoice)
    requires SumDebit(journal) == SumKredit(journal)
    ensures SumDebit(journal + JournalEntries(inv)) == SumKredit(journal + JournalEntries(inv))
    ensures (journal + JournalEntries(inv))[..|journal|] == journal
  {
    SumsConcat(journal, JournalEntries(inv));
  }

  // ---------------------------------------------------------------------------
  // Activity log

  /** `activities.push(entry)` followed by keeping only the last `cap` entries. */
  function AppendCapped<T>(log: seq<T>, entry: T, cap: nat): (r: seq<T>)
    requires cap > 0
    ensures |r| == if |log| + 1 <= cap then |log| + 1 else cap
    ensures r == (log + [entry])[|log| + 1 - |r|..]
    ensures r[|r| - 1] == entry
  {
    var grown := log + [entry];
    if |grown| > cap then grown[|grown| - cap..] else grown
  }

  /** The `activities` log after `logActivity`: unchanged without a user, else the entry is appended within the cap. */
  function ActivitiesAfterLog(log: seq<Activity>, user: Option<User>, activity: string, now: string): (r: seq<Activity>)
    ensures user.None? ==> r == log
    ensures user.Some? ==> r == AppendCapped(log, Activity(now, user.value.username, user.value.role, activity), MaxActivities)
    ensures |log| <= MaxActivities ==> |r| <= MaxActivities
  {
    match user
    case None => log
    case Some(u) => AppendCapped(log, Activity(now, u.username, u.role, activity), MaxActivities)
  }

  /** `getInvoices()`: the stored list, or nothing for a user who may not view invoices. */
  function GetInvoices(user: Option<User>, stored: seq<Invoice>): seq<Invoice> {
    if HasInvoicePermission(user, "view") then stored else []
  }
}
