/**
 * The invoice operations of keuangan.js over the browser's local storage. The
 * storage keys the operations touch (`dataPenjualan`, `dataJurnal`,
 * `laporanKeuangan`, `activities`) are the fields of one `Store`; each
 * operation reads a list, changes it and writes it back, as the original does.
 * The logged-in user and the clock are inputs. Whether the browser accepts a
 * write (`localStorage.setItem` throws when the storage is full or disabled)
 * is fixed for the page, as the `writable` constant.
 */
module KeuanganStore {
  import opened Wrappers
  import opened KeuanganPermissions
  import opened KeuanganInvoices

  class Store {
    var dataPenjualan: seq<Invoice>
    var dataJurnal: seq<JournalEntry>
    var laporanKeuangan: seq<LaporanEntry>
    var activities: seq<Activity>
    /** Whether `saveDataToLocalStorage` succeeds: when it does not, nothing is written and it answers false. */
    const writable: bool

    /** Empty local storage: every `getDataFromLocalStorage` yields []. */
    constructor (accepting: bool)
      ensures dataPenjualan == [] && dataJurnal == [] && laporanKeuangan == [] && activities == []
      ensures writable == accepting
    {
      dataPenjualan, dataJurnal, laporanKeuangan, activities := [], [], [], [];
      writable := accepting;
    }

    /**
     * `simpanInvoices(data)`: writes the whole invoice list back, for users who
     * may create or edit, and answers whether the write succeeded.
     */
    method SimpanInvoices(user: Option<User>, data: seq<Invoice>) returns (ok: bool)
      modifies this`dataPenjualan
      ensures ok == ((HasInvoicePermission(user, "create") || HasInvoicePermission(user, "edit")) && writable)
      ensures dataPenjualan == if ok then data else old(dataPenjualan)
    {
      if !HasInvoicePermission(user, "create") && !HasInvoicePermission(user, "edit") {
        return false;
      }
      ok := SaveDataPenjualan(data);
    }

    /** `saveDataToLocalStorage("dataPenjualan", data, ...)`. */
    method SaveDataPenjualan(data: seq<Invoice>) returns (ok: bool)
      modifies this`dataPenjualan
      ensures ok == writable
      ensures dataPenjualan == if ok then data else old(dataPenjualan)
    {
      if !writable {
        return false;
      }
      dataPenjualan := data;
      ok := true;
    }

    /**
     * `logActivity(activity)`: nothing without a user; otherwise one entry
     * appended, keeping the last 1000, when the storage takes the write.
     */
    method LogActivity(user: Option<User>, activity: string, now: string)
      modifies this`activities
      ensures activities == if writable then ActivitiesAfterLog(old(activities), user, activity, now) else old(activities)
    {
      if user.None? || !writable {
        return;
      }
      var log := activities;
      log := log + [Activity(now, user.value.username, user.value.role, activity)];
      if |log| > MaxActivities {
        log := log[|log| - MaxActivities..];
      }
      activities := log;
    }

    /** `simpanKeJurnal(invoiceData)`: appends the invoice's postings to `dataJurnal`, when the storage takes the write. */
    method SimpanKeJurnal(inv: Invoice)
      modifies this`dataJurnal
      ensures dataJurnal == if writable then old(dataJurnal) + JournalEntries(inv) else old(dataJurnal)
    {
      var jurnal := dataJurnal;
      jurnal := jurnal + JournalEntries(inv);
      if writable {
        dataJurnal := jurnal;
      }
    }

    /** `updateLaporanKeuanganAfterDelete(invoiceData)`: drops the report entries of a deleted invoice. */
    method UpdateLaporanKeuanganAfterDelete(deleted: Invoice)
      modifies this`laporanKeuangan
      ensures laporanKeuangan == if writable then FilterLaporan(old(laporanKeuangan), deleted) else old(laporanKeuangan)
    {
      var updated := FilterLaporan(laporanKeuangan, deleted);
      if writable {
        laporanKeuangan := updated;
      }
    }

    /** The steps after a saved invoice: its postings go to the journal, then the save is logged. */
    method PostAndLog(user: Option<User>, inv: Invoice, activity: string, now: string)
      requires writable
      modifies this`dataJurnal, this`activities
      ensures dataJurnal == old(dataJurnal) + JournalEntries(inv)
      ensures activities == ActivitiesAfterLog(old(activities), user, activity, now)
    {
      SimpanKeJurnal(inv);
      LogActivity(user, activity, now);
    }

    /** The steps after a saved settlement: the chosen invoices are settled, then it is posted and logged. */
    method SettlePostAndLog(user: Option<User>, form: InvoiceForm, inv: Invoice, todayIso: string, now: string)
      requires writable && HasInvoicePermission(user, "edit") && todayIso != ""
      modifies this`dataPenjualan, this`dataJurnal, this`activities
      ensures dataPenjualan == SettleChosen(old(dataPenjualan), form, todayIso)
      ensures dataJurnal == old(dataJurnal) + JournalEntries(inv)
      ensures activities == ActivitiesAfterLog(SettleLog(old(activities), old(dataPenjualan), form, user, now, todayIso),
                                               user, "Menyimpan invoice pelunasan: " + form.noInvoice, now)
    {
      MarkChosenSettled(user, form, todayIso, now);
      PostAndLog(user, inv, "Menyimpan invoice pelunasan: " + form.noInvoice, now);
    }

    /** The steps after a deletion is saved: the invoice's report entries are dropped, then the deletion is logged. */
    method DropReportAndLog(user: Option<User>, deleted: Invoice, activity: string, now: string)
      requires writable
      modifies this`laporanKeuangan, this`activities
      ensures laporanKeuangan == FilterLaporan(old(laporanKeuangan), deleted)
      ensures activities == ActivitiesAfterLog(old(activities), user, activity, now)
    {
      UpdateLaporanKeuanganAfterDelete(deleted);
      LogActivity(user, activity, now);
    }

    /**
     * `simpanInvoiceRegular(invoiceData)`: refused without the create permission
     * or for an incomplete form, with nothing changed; otherwise the invoice is
     * appended, posted to the journal and logged.
     */
    method SimpanInvoiceRegular(user: Option<User>, form: InvoiceForm, now: string) returns (ok: bool)
      modifies this
      ensures ok <==> HasInvoicePermission(user, "create") && FormComplete(form) && writable
      ensures !ok ==> dataPenjualan == old(dataPenjualan) && dataJurnal == old(dataJurnal) && activities == old(activities)
      ensures ok ==>
        var inv := RegularInvoice(form, user.value, ItemsTotal(form.items));
        && dataPenjualan == old(dataPenjualan) + [inv]
        && dataJurnal == old(dataJurnal) + JournalEntries(inv)
        && activities == ActivitiesAfterLog(old(activities), user, "Menyimpan invoice regular: " + form.noInvoice, now)
      ensures laporanKeuangan == old(laporanKeuangan)
    {
      if !HasInvoicePermission(user, "create") {
        return false;
      }
      if !FormComplete(form) {
        return false;
      }
      var total := SumItemTotals(form.items);
      var inv := RegularInvoice(form, user.value, total);
      var invoices := GetInvoices(user, dataPenjualan);
      invoices := invoices + [inv];
      ok := SimpanInvoices(user, invoices);
      if ok {
        PostAndLog(user, inv, "Menyimpan invoice regular: " + form.noInvoice, now);
      }
    }

    /**
     * `simpanInvoiceDP(invoiceData)`: as the regular save, and also refused when
     * the down payment is not positive; the stored balance is the total less the
     * down payment and the journal gets the down-payment pair too.
     */
    method SimpanInvoiceDP(user: Option<User>, form: InvoiceForm, now: string) returns (ok: bool)
      modifies this
      ensures ok <==> HasInvoicePermission(user, "create") && FormComplete(form) && form.dp > 0 && writable
      ensures !ok ==> dataPenjualan == old(dataPenjualan) && dataJurnal == old(dataJurnal) && activities == old(activities)
      ensures ok ==>
        var inv := DPInvoice(form, user.value, ItemsTotal(form.items));
        && dataPenjualan == old(dataPenjualan) + [inv]
        && dataJurnal == old(dataJurnal) + JournalEntries(inv)
        && |JournalEntries(inv)| == 4
        && activities == ActivitiesAfterLog(old(activities), user, "Menyimpan invoice DP: " + form.noInvoice, now)
      ensures laporanKeuangan == old(laporanKeuangan)
    {
      if !HasInvoicePermission(user, "create") {
        return false;
      }
      if !FormComplete(form) {
        return false;
      }
      if form.dp <= 0 {
        return false;
      }
      var total := SumItemTotals(form.items);
      var inv := DPInvoice(form, user.value, total);
      var invoices := GetInvoices(user, dataPenjualan);
      invoices := invoices + [inv];
      ok := SimpanInvoices(user, invoices);
      if ok {
        PostAndLog(user, inv, "Menyimpan invoice DP: " + form.noInvoice, now);
      }
    }

    /**
     * `updateStatusInvoice(noInvoice, status)`: refused without the edit
     * permission or when no invoice has that number; otherwise the first such
     * invoice takes the new status and the change is logged. `today` is the ISO
     * date used to back-fill a settlement date.
     */
    method UpdateStatusInvoice(user: Option<User>, noInvoice: string, status: string, today: string, now: string)
      returns (ok: bool)
      requires today != ""
      modifies this`dataPenjualan, this`activities
      ensures ok <==> HasInvoicePermission(user, "edit") && FindIndex(old(dataPenjualan), noInvoice) >= 0 && writable
      ensures dataPenjualan == if ok then ApplyStatus(old(dataPenjualan), noInvoice, status, today) else old(dataPenjualan)
      ensures activities ==
        if ok then ActivitiesAfterLog(old(activities), user, StatusText(status, noInvoice), now) else old(activities)
    {
      if !HasInvoicePermission(user, "edit") {
        return false;
      }
      var invoices := GetInvoices(user, dataPenjualan);
      var index := FindIndex(invoices, noInvoice);
      if index == -1 {
        return false;
      }
      var updated := WithStatus(invoices[index], status, today);
      invoices := invoices[index := updated];
      ok := SimpanInvoices(user, invoices);
      if ok {
        LogActivity(user, StatusText(status, noInvoice), now);
      }
    }

    /**
     * `simpanInvoicePelunasan(invoiceData)`: refused without the create
     * permission or for an incomplete settlement; otherwise the settlement
     * invoice is appended, each chosen invoice (the down-payment one first) is
     * marked settled through `updateStatusInvoice`, and the settlement is posted
     * and logged. `todayLong` is the long local date stored on the settlement,
     * `todayIso` the ISO date the status updates back-fill.
     */
    method SimpanInvoicePelunasan(user: Option<User>, form: InvoiceForm, todayLong: string, todayIso: string, now: string)
      returns (ok: bool)
      requires todayLong != "" && todayIso != ""
      modifies this
      ensures ok <==> HasInvoicePermission(user, "create") && PelunasanComplete(form) && writable
      ensures !ok ==> dataPenjualan == old(dataPenjualan) && dataJurnal == old(dataJurnal) && activities == old(activities)
      ensures ok ==>
        var inv := PelunasanInvoice(form, user.value, todayLong);
        var appended := old(dataPenjualan) + [inv];
        && dataPenjualan == SettleChosen(appended, form, todayIso)
        && dataJurnal == old(dataJurnal) + JournalEntries(inv)
        && activities == ActivitiesAfterLog(SettleLog(old(activities), appended, form, user, now, todayIso),
                                            user, "Menyimpan invoice pelunasan: " + form.noInvoice, now)
      ensures laporanKeuangan == old(laporanKeuangan)
    {
      if !HasInvoicePermission(user, "create") {
        return false;
      }
      if !PelunasanComplete(form) {
        return false;
      }
      var inv := PelunasanInvoice(form, user.value, todayLong);
      var invoices := GetInvoices(user, dataPenjualan);
      invoices := invoices + [inv];
      ok := SimpanInvoices(user, invoices);
      if ok {
        CreateOrDeleteImpliesViewAndEdit(user);
        SettlePostAndLog(user, form, inv, todayIso, now);
      }
    }

    /**
     * The status updates of `simpanInvoicePelunasan`: the chosen down-payment
     * invoice, then the chosen regular invoice, each through
     * `updateStatusInvoice` with the status "Lunas".
     */
    method MarkChosenSettled(user: Option<User>, form: InvoiceForm, todayIso: string, now: string)
      requires todayIso != ""
      modifies this`dataPenjualan, this`activities
      ensures dataPenjualan == if HasInvoicePermission(user, "edit") && writable then SettleChosen(old(dataPenjualan), form, todayIso) else old(dataPenjualan)
      ensures activities == if HasInvoicePermission(user, "edit") && writable
                            then SettleLog(old(activities), old(dataPenjualan), form, user, now, todayIso)
                            else old(activities)
    {
      if form.dpInvoice.Some? {
        var _ := UpdateStatusInvoice(user, form.dpInvoice.value.noInvoice, Lunas, todayIso, now);
      }
      if form.regularInvoice.Some? {
        var _ := UpdateStatusInvoice(user, form.regularInvoice.value.noInvoice, Lunas, todayIso, now);
      }
    }

    /**
     * `hapusInvoice(noInvoice)`: refused without the delete permission or when
     * no invoice has that number; otherwise the first such invoice is removed,
     * the report entries tied to it are dropped and the deletion is logged. The
     * journal is not touched.
     */
    method HapusInvoice(user: Option<User>, noInvoice: string, now: string) returns (ok: bool)
      modifies this`dataPenjualan, this`laporanKeuangan, this`activities
      ensures ok <==> HasInvoicePermission(user, "delete") && FindIndex(old(dataPenjualan), noInvoice) >= 0 && writable
      ensures !ok ==> dataPenjualan == old(dataPenjualan) && laporanKeuangan == old(laporanKeuangan) && activities == old(activities)
      ensures ok ==>
        var index := FindIndex(old(dataPenjualan), noInvoice);
        && dataPenjualan == RemoveAt(old(dataPenjualan), index)
        && laporanKeuangan == FilterLaporan(old(laporanKeuangan), old(dataPenjualan)[index])
        && activities == ActivitiesAfterLog(old(activities), user, "Menghapus invoice: " + noInvoice, now)
      ensures dataJurnal == old(dataJurnal)
    {
      if !HasInvoicePermission(user, "delete") {
        return false;
      }
      CreateOrDeleteImpliesViewAndEdit(user);
      var invoices := GetInvoices(user, dataPenjualan);
      assert invoices == dataPenjualan;
      var index := FindIndex(invoices, noInvoice);
      if index == -1 {
        return false;
      }
      var deleted := invoices[index];
      var remaining := RemoveAt(invoices, index);
      ok := SimpanInvoices(user, remaining);
      assert ok == writable;
      if ok {
        DropReportAndLog(user, deleted, "Menghapus invoice: " + noInvoice, now);
      }
    }
  }
}
