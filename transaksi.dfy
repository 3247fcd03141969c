/**
 * transaksi.php: the JSON endpoint that saves invoices with their items and
 * general transactions, and pages through them. The database is a value of
 * three tables and their auto-increment counters. The driver's failures are
 * an input naming the write statement it rejects, and its error text.
 */
module Transaksi {
  import opened Wrappers
  import opened Text
  import opened PhpValues

  /** Request fields: `$_POST` with the JSON body merged in, or `$_GET`. */
  type Fields = map<string, string>

  /** `$data[$key] ?? $default`. */
  function Get(data: Fields, key: string, default: string): string {
    if key in data then data[key] else default
  }

  // ---------------------------------------------------------------- validateInput

  /** `!isset($data[$field]) || $data[$field] === ''`. */
  predicate Missing(data: Fields, field: string) {
    field !in data || data[field] == ""
  }

  /** The position of the first required field that is missing; |required| when none is. */
  function FirstMissing(data: Fields, required: seq<string>): (k: nat)
    ensures k <= |required|
    ensures forall i :: 0 <= i < k ==> !Missing(data, required[i])
    ensures k < |required| ==> Missing(data, required[k])
  {
    if required == [] then 0
    else if Missing(data, required[0]) then 0
    else 1 + FirstMissing(data, required[1..])
  }

  /** Why a request is refused; `Message` gives the text the endpoint answers with. */
  datatype Failure =
    | FieldRequired(field: string)
    | TotalNotPositive
    | DpAboveTotal
    | NegativePrice
    | DatabaseError(driverMessage: string)
    | InvalidId
    | NotFound
    | NoAmount
    | UnknownAction

  function Message(f: Failure): string {
    match f
    case FieldRequired(field) => field + " wajib diisi"
    case TotalNotPositive => "Total invoice harus lebih dari 0"
    case DpAboveTotal => "DP tidak boleh lebih besar dari total"
    case NegativePrice => "Harga tidak boleh negatif"
    case DatabaseError(m) => "Database error: " + m
    case InvalidId => "ID invoice tidak valid"
    case NotFound => "Invoice tidak ditemukan"
    case NoAmount => "Salah satu debit atau credit harus lebih dari 0"
    case UnknownAction => "Action tidak dikenal"
  }

  /** The exception `validateInput` throws, if any. */
  function Validate(data: Fields, required: seq<string>): Option<Failure> {
    var k := FirstMissing(data, required);
    if k < |required| then Some(FieldRequired(required[k])) else None
  }

  /** `validateInput($data, $required)`: the first missing field in the order given, or none when all are present. */
  method ValidateInput(data: Fields, required: seq<string>) returns (r: Option<Failure>)
    ensures r.None? <==> forall i :: 0 <= i < |required| ==> !Missing(data, required[i])
    ensures r.Some? ==> exists k :: 0 <= k < |required| && Missing(data, required[k])
                                    && (forall i :: 0 <= i < k ==> !Missing(data, required[i]))
                                    && r == Some(FieldRequired(required[k]))
    ensures r == Validate(data, required)
  {
    var i := 0;
    while i < |required|
      invariant i <= |required|
      invariant forall j :: 0 <= j < i ==> !Missing(data, required[j])
    {
      if Missing(data, required[i]) {
        return Some(FieldRequired(required[i]));
      }
      i := i + 1;
    }
    return None;
  }

  // ---------------------------------------------------------------- sanitizeNumber

  /** `str_replace(',', '', $s)`. */
  function RemoveCommas(s: string): string {
    if s == [] then [] else (if s[0] == ',' then [] else [s[0]]) + RemoveCommas(s[1..])
  }

  /** Removing commas leaves no comma, keeps text without commas, and works piece by piece. */
  lemma {:induction false} RemoveCommasFacts(s: string)
    ensures ',' !in RemoveCommas(s)
    ensures ',' !in s ==> RemoveCommas(s) == s
    ensures |RemoveCommas(s)| == |s| - CountChar(s, ',')
  {
    if s != [] {
      RemoveCommasFacts(s[1..]);
      assert s == [s[0]] + s[1..];
      CountCharCons(s[0], s[1..], ',');
    }
  }

  lemma CountCharCons(c: char, s: string, x: char)
    ensures CountChar([c] + s, x) == (if c == x then 1 else 0) + CountChar(s, x)
  {
    assert ([c] + s)[1..] == s;
  }

  lemma {:induction false} RemoveCommasConcat(a: string, b: string)
    ensures RemoveCommas(a + b) == RemoveCommas(a) + RemoveCommas(b)
  {
    if a != [] {
      assert (a + b)[0] == a[0];
      assert (a + b)[1..] == a[1..] + b;
      RemoveCommasConcat(a[1..], b);
    } else {
      assert a + b == b;
    }
  }

  /** `sanitizeNumber($value)`. */
  function SanitizeNumber(v: string): real {
    FloatVal(RemoveCommas(v))
  }

  /** A comma anywhere is ignored: "1,250,000" reads as 1250000. */
  lemma SanitizeIgnoresComma(a: string, b: string)
    ensures SanitizeNumber(a + "," + b) == SanitizeNumber(a + b)
  {
    CommaDropped(a, b);
  }

  lemma CommaDropped(a: string, b: string)
    ensures RemoveCommas(a + "," + b) == RemoveCommas(a + b)
  {
    RemoveCommasConcat(a + ",", b);
    RemoveCommasConcat(a, ",");
    RemoveCommasConcat(a, b);
    assert RemoveCommas(",") == [];
  }

  /** Plain digits read as their value; digits with a decimal point as the exact decimal. */
  lemma SanitizeDigits(whole: string, fraction: string)
    requires AllDigits(whole) && AllDigits(fraction)
    ensures SanitizeNumber(whole) == ParseDigits(whole) as real
    ensures SanitizeNumber(whole + "." + fraction)
         == ParseDigits(whole) as real + ParseDigits(fraction) as real / Pow10(|fraction|) as real
  {
    DigitsHaveNo(whole, ',');
    DigitsHaveNo(fraction, ',');
    RemoveCommasFacts(whole);
    RemoveCommasFacts(whole + "." + fraction);
    DigitsConvert(whole);
    FloatValDecimal(whole, fraction);
  }

  // ---------------------------------------------------------------- the invoice request

  /** `$_POST['jenis'] ?? 'reguler'`, with 'regular' corrected to the database's 'reguler'. */
  function NormaliseJenis(jenis: Option<string>): (r: string)
    ensures r != "regular"
    ensures jenis.None? ==> r == "reguler"
    ensures jenis.Some? && jenis.value != "regular" ==> r == jenis.value
  {
    if jenis.None? || jenis.value == "regular" then "reguler" else jenis.value
  }

  /** Normalising twice changes nothing more. */
  lemma NormaliseJenisIdempotent(jenis: Option<string>)
    ensures NormaliseJenis(Some(NormaliseJenis(jenis))) == NormaliseJenis(jenis)
  {
  }

  function Lookup(data: Fields, key: string): Option<string> {
    if key in data then Some(data[key]) else None
  }

  /** `!empty($data[$key]) ? intval($data[$key]) : null`. */
  function OptionalId(data: Fields, key: string): Option<int> {
    if key in data && !PhpEmpty(data[key]) then Some(IntVal(data[key])) else None
  }

  datatype Item = Item(description: string, qty: int, price: real)

  function Max(a: int, b: int): int { if a < b then b else a }

  /** One element of `items`: description '' by default, `qty = max(1, intval(qty ?? 1))`, price sanitised (0 by default). */
  function ParseItem(f: Fields): (it: Item)
    ensures it.qty >= 1
  {
    Item(Get(f, "description", ""), Max(1, IntVal(Get(f, "qty", "1"))), SanitizeNumber(Get(f, "price", "0")))
  }

  /** Without `qty` the quantity is 1; without `price` the price is 0. */
  lemma ParseItemDefaults(f: Fields)
    ensures "qty" !in f ==> ParseItem(f).qty == 1
    ensures "price" !in f ==> ParseItem(f).price == 0.0
  {
    OneAndZero();
  }

  lemma OneAndZero()
    ensures IntVal("1") == 1 && SanitizeNumber("0") == 0.0
  {
    DigitsConvert("1");
    ZeroHasNoComma();
    DigitsConvert("0");
  }

  lemma ZeroHasNoComma()
    ensures RemoveCommas("0") == "0"
  {
  }

  /** A quantity written as a positive whole number is kept as it is, up to `PHP_INT_MAX`, where `intval` saturates. */
  lemma ParseItemKeepsQuantity(f: Fields, n: nat)
    requires n >= 1 && "qty" in f && f["qty"] == NatToString(n)
    ensures n <= PhpIntMax ==> ParseItem(f).qty == n
    ensures n > PhpIntMax ==> ParseItem(f).qty == PhpIntMax
  {
    IntValReadsBack(n);
  }

  function ParseItems(items: seq<Fields>): (r: seq<Item>)
    ensures |r| == |items|
    ensures forall i :: 0 <= i < |items| ==> r[i] == ParseItem(items[i])
  {
    if items == [] then [] else [ParseItem(items[0])] + ParseItems(items[1..])
  }

  datatype InvoiceRequest = InvoiceRequest(
    noInvoice: string, tanggal: string, customerId: Option<int>, jenis: string,
    total: real, dp: real, status: string, items: seq<Item>)

  datatype Checked<T> = Accepted(value: T) | Rejected(failure: Failure)

  const InvoiceFields: seq<string> := ["no_invoice", "tanggal", "total"]

  /** The checks `simpan_invoice` makes before opening a transaction, in the order it makes them. */
  function ParseInvoice(post: Fields, items: seq<Fields>): Checked<InvoiceRequest> {
    var missing := Validate(post, InvoiceFields);
    if missing.Some? then Rejected(missing.value)
    else
      var req := InvoiceRequest(
        Get(post, "no_invoice", ""), Get(post, "tanggal", ""), OptionalId(post, "customer_id"),
        NormaliseJenis(Lookup(post, "jenis")), SanitizeNumber(Get(post, "total", "")),
        SanitizeNumber(Get(post, "dp", "0")), Get(post, "status", "Belum Lunas"), ParseItems(items));
      if req.total <= 0.0 then Rejected(TotalNotPositive)
      else if req.dp > req.total then Rejected(DpAboveTotal)
      else Accepted(req)
  }

  /** A request is accepted exactly when the three fields are present, the total is positive and the DP does not exceed it. */
  lemma ParseInvoiceAccepts(post: Fields, items: seq<Fields>)
    ensures var p := ParseInvoice(post, items);
      p.Accepted? <==> (&& (forall i :: 0 <= i < |InvoiceFields| ==> !Missing(post, InvoiceFields[i]))
                        && SanitizeNumber(Get(post, "total", "")) > 0.0
                        && SanitizeNumber(Get(post, "dp", "0")) <= SanitizeNumber(Get(post, "total", "")))
    ensures var p := ParseInvoice(post, items);
      p.Accepted? ==> && p.value.total > 0.0 && p.value.dp <= p.value.total
                      && p.value.jenis != "regular" && |p.value.items| == |items|
                      && (forall i :: 0 <= i < |items| ==> p.value.items[i].qty >= 1)
  {
    ValidateNone(post, InvoiceFields);
  }

  lemma ValidateNone(data: Fields, required: seq<string>)
    ensures Validate(data, required).None? <==> forall i :: 0 <= i < |required| ==> !Missing(data, required[i])
  {
  }

  // ---------------------------------------------------------------- the database

  datatype InvoiceRow = InvoiceRow(
    id: nat, noInvoice: string, tanggal: string, customerId: Option<int>, jenis: string,
    total: real, dp: real, status: string)

  datatype ItemRow = ItemRow(id: nat, invoiceId: nat, description: string, qty: int, price: real)

  datatype TransactionRow = TransactionRow(
    id: nat, userId: Option<int>, transactionDate: string, description: string, debit: real, credit: real)

  /** The rows of `invoices`, `invoice_items` and `transactions`, oldest first. */
  datatype Tables = Tables(invoices: seq<InvoiceRow>, items: seq<ItemRow>, transactions: seq<TransactionRow>)

  /** The next auto-increment value of each table; a rollback does not give used values back. */
  datatype Ids = Ids(invoice: nat, item: nat, transaction: nat)

  /** The tables, the counters, and the tables as they were when the open transaction began. */
  datatype DbState = DbState(tables: Tables, next: Ids, savepoint: Option<Tables>)

  /** The write statement of the request the driver rejects (0 is the first), and the text of its error. */
  datatype Driver = Driver(rejects: Option<nat>, message: string)

  predicate Rejects(d: Driver, k: nat) { d.rejects == Some(k) }

  function Begin(db: DbState): DbState { db.(savepoint := Some(db.tables)) }

  /** `rollBack()`; also what happens to a transaction still open when the connection closes. */
  function RollBack(db: DbState): DbState {
    if db.savepoint.Some? then db.(tables := db.savepoint.value, savepoint := None) else db
  }

  function InvoiceRowOf(id: nat, req: InvoiceRequest): InvoiceRow {
    InvoiceRow(id, req.noInvoice, req.tanggal, req.customerId, req.jenis, req.total, req.dp, req.status)
  }

  function ItemRowOf(id: nat, invoiceId: nat, it: Item): ItemRow {
    ItemRow(id, invoiceId, it.description, it.qty, it.price)
  }

  /** The rows the items get when inserted one after another from the counter value `first`. */
  function ItemRows(first: nat, invoiceId: nat, items: seq<Item>): seq<ItemRow>
    decreases |items|
  {
    if items == [] then [] else [ItemRowOf(first, invoiceId, items[0])] + ItemRows(first + 1, invoiceId, items[1..])
  }

  lemma {:induction false} ItemRowsFacts(first: nat, invoiceId: nat, items: seq<Item>)
    ensures |ItemRows(first, invoiceId, items)| == |items|
    ensures forall i :: 0 <= i < |items| ==> ItemRows(first, invoiceId, items)[i] == ItemRowOf(first + i, invoiceId, items[i])
    decreases |items|
  {
    if items != [] {
      ItemRowsFacts(first + 1, invoiceId, items[1..]);
    }
  }

  function InsertInvoice(db: DbState, req: InvoiceRequest): DbState {
    db.(tables := db.tables.(invoices := db.tables.invoices + [InvoiceRowOf(db.next.invoice, req)]),
        next := db.next.(invoice := db.next.invoice + 1))
  }

  function InsertItem(db: DbState, invoiceId: nat, it: Item): DbState {
    db.(tables := db.tables.(items := db.tables.items + [ItemRowOf(db.next.item, invoiceId, it)]),
        next := db.next.(item := db.next.item + 1))
  }

  // ---------------------------------------------------------------- simpan_invoice

  datatype Pagination = Pagination(page: int, limit: int, total: nat, totalPages: nat)

  /** What the endpoint answers; `Fatal` is an uncaught PHP error, which produces no JSON answer. */
  datatype Response =
    | InvoiceSaved(invoiceId: nat)
    | TransactionSaved(transactionId: nat)
    | InvoicePage(invoices: seq<InvoiceRow>, pagination: Pagination)
    | TransactionPage(transactions: seq<TransactionRow>, pagination: Pagination)
    | InvoiceDetail(invoice: InvoiceRow, lines: seq<ItemRow>)
    | Failed(failure: Failure)
    | Fatal

  /** Item k stops the loop: its price is negative, or the driver rejects its insert (statement k + 1). */
  predicate ItemFails(items: seq<Item>, k: nat, d: Driver)
    requires k < |items|
  {
    items[k].price < 0.0 || Rejects(d, k + 1)
  }

  /** The first item from k on that stops the loop; |items| when none does. */
  function StopFrom(items: seq<Item>, k: nat, d: Driver): (s: nat)
    requires k <= |items|
    ensures k <= s <= |items|
    ensures forall j :: k <= j < s ==> !ItemFails(items, j, d)
    ensures s < |items| ==> ItemFails(items, s, d)
    decreases |items| - k
  {
    if k == |items| then k else if ItemFails(items, k, d) then k else StopFrom(items, k + 1, d)
  }

  /**
   * The item loop from item k on. A negative price throws a plain exception,
   * whose handler does not roll back, so the transaction stays open; a driver
   * error rolls back; after the last item the transaction commits.
   */
  function SaveItems(db: DbState, invoiceId: nat, items: seq<Item>, k: nat, d: Driver): (Response, DbState)
    requires k <= |items|
    decreases |items| - k
  {
    if k == |items| then (InvoiceSaved(invoiceId), db.(savepoint := None))
    else if items[k].price < 0.0 then (Failed(NegativePrice), db)
    else if Rejects(d, k + 1) then (Failed(DatabaseError(d.message)), RollBack(db))
    else SaveItems(InsertItem(db, invoiceId, items[k]), invoiceId, items, k + 1, d)
  }

  /** `simpan_invoice` after its checks: begin, insert the invoice, insert the items, commit. */
  function SaveInvoice(db: DbState, req: InvoiceRequest, d: Driver): (Response, DbState) {
    if Rejects(d, 0) then (Failed(DatabaseError(d.message)), RollBack(Begin(db)))
    else SaveItems(InsertInvoice(Begin(db), req), db.next.invoice, req.items, 0, d)
  }

  /** What the item loop from k on leaves once the connection is closed. */
  lemma {:induction false} SaveItemsOutcome(db: DbState, invoiceId: nat, items: seq<Item>, k: nat, d: Driver)
    requires k <= |items| && db.savepoint.Some?
    ensures var (r, after) := SaveItems(db, invoiceId, items, k, d);
      var s := StopFrom(items, k, d);
      && RollBack(after).savepoint == None
      && after.next == db.next.(item := db.next.item + (s - k))
      && (s == |items| ==>
            && r == InvoiceSaved(invoiceId)
            && RollBack(after).tables == db.tables.(items := db.tables.items + ItemRows(db.next.item, invoiceId, items[k..])))
      && (s < |items| ==>
            && r == Failed(if items[s].price < 0.0 then NegativePrice else DatabaseError(d.message))
            && RollBack(after).tables == db.savepoint.value)
    decreases |items| - k
  {
    if k == |items| {
      assert items[k..] == [];
    } else if !ItemFails(items, k, d) {
      var db1 := InsertItem(db, invoiceId, items[k]);
      SaveItemsOutcome(db1, invoiceId, items, k + 1, d);
      assert items[k..] == [items[k]] + items[k + 1..];
    }
  }

  /**
   * All or nothing: once the connection is closed, either the invoice and
   * every one of its items are stored and the answer is the new invoice's id,
   * or the answer is a failure and every table is as before.
   */
  lemma InvoiceAllOrNothing(db: DbState, req: InvoiceRequest, d: Driver)
    requires db.savepoint == None
    ensures var (r, after) := SaveInvoice(db, req, d);
      && RollBack(after).savepoint == None
      && (r.InvoiceSaved? <==> !Rejects(d, 0) && StopFrom(req.items, 0, d) == |req.items|)
      && (r.InvoiceSaved? ==>
            && r.invoiceId == db.next.invoice
            && RollBack(after).tables == Tables(db.tables.invoices + [InvoiceRowOf(db.next.invoice, req)],
                                                db.tables.items + ItemRows(db.next.item, db.next.invoice, req.items),
                                                db.tables.transactions))
      && (!r.InvoiceSaved? ==> r.Failed? && RollBack(after).tables == db.tables)
  {
    if !Rejects(d, 0) {
      SaveItemsOutcome(InsertInvoice(Begin(db), req), db.next.invoice, req.items, 0, d);
      assert req.items[0..] == req.items;
    }
  }

  // ---------------------------------------------------------------- simpan_transaksi

  const TransactionFields: seq<string> := ["tanggal", "description"]

  /** `sanitizeNumber($_POST[$key] ?? 0)`. */
  function Amount(post: Fields, key: string): real {
    SanitizeNumber(Get(post, key, "0"))
  }

  function TransactionRowOf(id: nat, post: Fields): TransactionRow {
    TransactionRow(id, OptionalId(post, "user_id"), Get(post, "tanggal", ""), Get(post, "description", ""),
                   Amount(post, "debit"), Amount(post, "credit"))
  }

  /** Why `simpan_transaksi` stores nothing, if it stores the row. */
  function TransactionRefusal(post: Fields, d: Driver): Option<Failure> {
    var missing := Validate(post, TransactionFields);
    if missing.Some? then missing
    else if Amount(post, "debit") <= 0.0 && Amount(post, "credit") <= 0.0 then Some(NoAmount)
    else if Rejects(d, 0) then Some(DatabaseError(d.message))
    else None
  }

  /** The checks of `simpan_transaksi`, in its order: the two fields, an amount, then the driver. */
  method CheckTransaction(post: Fields, d: Driver) returns (refusal: Option<Failure>)
    ensures refusal == TransactionRefusal(post, d)
  {
    refusal := ValidateInput(post, TransactionFields);
    if refusal.Some? {
      return;
    }
    var debit := Amount(post, "debit");
    var credit := Amount(post, "credit");
    if debit <= 0.0 && credit <= 0.0 {
      return Some(NoAmount);
    }
    if Rejects(d, 0) {
      return Some(DatabaseError(d.message));
    }
  }

  /** `simpan_transaksi`: validate, require an amount on one side, insert outside any transaction. */
  function SaveTransaction(db: DbState, post: Fields, d: Driver): (Response, DbState) {
    var refusal := TransactionRefusal(post, d);
    if refusal.Some? then (Failed(refusal.value), db)
    else
      var id := db.next.transaction;
      (TransactionSaved(id),
       db.(tables := db.tables.(transactions := db.tables.transactions + [TransactionRowOf(id, post)]),
           next := db.next.(transaction := id + 1)))
  }

  /** A transaction is stored exactly when both fields are present, one amount is positive and the driver accepts the insert. */
  lemma TransactionNeedsAmount(db: DbState, post: Fields, d: Driver)
    ensures var (r, after) := SaveTransaction(db, post, d);
      && (r.TransactionSaved? <==> && "tanggal" in post && post["tanggal"] != ""
                                   && "description" in post && post["description"] != ""
                                   && (Amount(post, "debit") > 0.0 || Amount(post, "credit") > 0.0)
                                   && !Rejects(d, 0))
      && (r.TransactionSaved? ==> after.tables.transactions == db.tables.transactions + [TransactionRowOf(r.transactionId, post)]
                                  && after.tables.invoices == db.tables.invoices && after.tables.items == db.tables.items)
      && (!r.TransactionSaved? ==> r.Failed? && after == db)
  {
    var k := FirstMissing(post, TransactionFields);
    if k == 2 {
      assert !Missing(post, TransactionFields[0]) && !Missing(post, TransactionFields[1]);
    }
  }

  // ---------------------------------------------------------------- get_invoices / get_transaksi

  /** `isset($_GET[$key]) ? intval($_GET[$key]) : $default`. */
  function Param(get: Fields, key: string, default: int): int {
    if key in get then IntVal(get[key]) else default
  }

  /** `ceil($total / $limit)` for a positive limit. */
  function CeilDiv(total: nat, limit: int): nat
    requires limit > 0
  {
    (total + limit - 1) / limit
  }

  /** The page count is the least number of pages of `limit` rows that hold all rows. */
  lemma CeilDivBounds(total: nat, limit: int)
    requires limit > 0
    ensures CeilDiv(total, limit) * limit >= total
    ensures CeilDiv(total, limit) == 0 || (CeilDiv(total, limit) - 1) * limit < total
    ensures total == 0 <==> CeilDiv(total, limit) == 0
  {
    var q, r := (total + limit - 1) / limit, (total + limit - 1) % limit;
    assert total + limit - 1 == q * limit + r;
    assert (q - 1) * limit == q * limit - limit;
  }

  /** The rows newest first (`ORDER BY created_at DESC`, with creation in insertion order). */
  function NewestFirst<T>(rows: seq<T>): (r: seq<T>)
    ensures |r| == |rows|
  {
    if rows == [] then [] else NewestFirst(rows[1..]) + [rows[0]]
  }

  lemma {:induction false} NewestFirstFacts<T>(rows: seq<T>)
    ensures forall i :: 0 <= i < |rows| ==> NewestFirst(rows)[i] == rows[|rows| - 1 - i]
  {
    if rows != [] {
      NewestFirstFacts(rows[1..]);
    }
  }

  function Min(a: int, b: int): int { if a < b then a else b }

  /** `LIMIT limit OFFSET offset`. */
  function Window<T>(rows: seq<T>, offset: nat, limit: nat): seq<T> {
    rows[Min(offset, |rows|)..Min(offset + limit, |rows|)]
  }

  /** The list query of a table: it fails for a negative LIMIT or OFFSET, and dividing by a zero limit is fatal. */
  datatype Listing<T> = Listing(rows: seq<T>, pagination: Pagination) | ListingRejected | ListingFatal

  /** `get_invoices` / `get_transaksi` for the page and limit read from the query. */
  function List<T>(all: seq<T>, page: int, limit: int): Listing<T> {
    var offset := (page - 1) * limit;
    if limit < 0 || offset < 0 then ListingRejected
    else if limit == 0 then ListingFatal
    else Listing(Window(NewestFirst(all), offset, limit), Pagination(page, limit, |all|, CeilDiv(|all|, limit)))
  }

  /** Without `page` and `limit` the listing is page 1 of 20: the twenty newest rows. */
  lemma ListDefaults<T>(all: seq<T>, get: Fields)
    requires "page" !in get && "limit" !in get
    ensures Param(get, "page", 1) == 1 && Param(get, "limit", 20) == 20
    ensures List(all, 1, 20) == Listing(NewestFirst(all)[..Min(20, |all|)], Pagination(1, 20, |all|, CeilDiv(|all|, 20)))
  {
  }

  /** A page or limit written as a whole number is read as that number, or as `PHP_INT_MAX` when it is larger. */
  lemma ParamReadsBack(get: Fields, key: string, n: nat, default: int)
    requires key in get && get[key] == NatToString(n)
    ensures n <= PhpIntMax ==> Param(get, key, default) == n
    ensures n > PhpIntMax ==> Param(get, key, default) == PhpIntMax
  {
    IntValReadsBack(n);
  }

  /** A negative limit, or a page before the first with a positive limit, is refused by the database; a zero limit is fatal. */
  lemma ListRefusals<T>(all: seq<T>, page: int, limit: int)
    ensures limit < 0 ==> List(all, page, limit).ListingRejected?
    ensures limit > 0 && page < 1 ==> List(all, page, limit).ListingRejected?
    ensures limit == 0 ==> List(all, page, limit).ListingFatal?
    ensures limit > 0 && page >= 1 ==> List(all, page, limit).Listing?
  {
    if limit > 0 && page < 1 {
      assert (page - 1) * limit < 0;
    }
    if limit > 0 && page >= 1 {
      assert (page - 1) * limit >= 0;
    }
  }

  /** What pages 1 to k of `limit` rows serve, one after another. */
  function Served<T>(all: seq<T>, limit: int, k: nat): seq<T>
    requires limit > 0
  {
    if k == 0 then [] else
      ListRefusals(all, k, limit);
      Served(all, limit, k - 1) + List(all, k, limit).rows
  }

  /** Pages 1 to k serve the k * limit newest rows, each once and newest first. */
  lemma {:induction false} ServedCover<T>(all: seq<T>, limit: int, k: nat)
    requires limit > 0
    ensures Served(all, limit, k) == NewestFirst(all)[..Min(k * limit, |all|)]
  {
    if k > 0 {
      ServedCover(all, limit, k - 1);
      ListRefusals(all, k, limit);
      assert (k - 1) * limit + limit == k * limit;
      assert (k - 1) * limit >= 0;
      var rows := NewestFirst(all);
      var a, b := Min((k - 1) * limit, |rows|), Min(k * limit, |rows|);
      assert List(all, k, limit).rows == rows[a..b];
      assert rows[..a] + rows[a..b] == rows[..b];
    }
  }

  /** Pages 1 to total_pages serve every row exactly once, newest first. */
  lemma AllPagesServed<T>(all: seq<T>, limit: int)
    requires limit > 0
    ensures List(all, 1, limit).Listing?
    ensures Served(all, limit, List(all, 1, limit).pagination.totalPages) == NewestFirst(all)
  {
    ListRefusals(all, 1, limit);
    CeilDivBounds(|all|, limit);
    ServedCover(all, limit, CeilDiv(|all|, limit));
  }

  function ListInvoices(t: Tables, get: Fields, d: Driver): Response {
    match List(t.invoices, Param(get, "page", 1), Param(get, "limit", 20))
    case Listing(rows, p) => InvoicePage(rows, p)
    case ListingRejected => Failed(DatabaseError(d.message))
    case ListingFatal => Fatal
  }

  function ListTransactions(t: Tables, get: Fields, d: Driver): Response {
    match List(t.transactions, Param(get, "page", 1), Param(get, "limit", 20))
    case Listing(rows, p) => TransactionPage(rows, p)
    case ListingRejected => Failed(DatabaseError(d.message))
    case ListingFatal => Fatal
  }

  // ---------------------------------------------------------------- get_invoice

  function FindInvoice(rows: seq<InvoiceRow>, id: int): (r: Option<InvoiceRow>)
    ensures r.Some? ==> r.value in rows && r.value.id == id
    ensures r.None? ==> forall i :: 0 <= i < |rows| ==> rows[i].id != id
  {
    if rows == [] then None else if rows[0].id == id then Some(rows[0]) else FindInvoice(rows[1..], id)
  }

  /** The items of one invoice, in table order. */
  function ItemsOf(items: seq<ItemRow>, id: int): (r: seq<ItemRow>)
    ensures forall i :: 0 <= i < |r| ==> r[i] in items && r[i].invoiceId == id
  {
    if items == [] then []
    else (if items[0].invoiceId == id then [items[0]] else []) + ItemsOf(items[1..], id)
  }

  /** The items of an invoice are every stored row with its id, as often as it is stored, and no other row. */
  lemma {:induction false} ItemsOfSelects(items: seq<ItemRow>, id: int)
    ensures forall x :: x in ItemsOf(items, id) <==> x in items && x.invoiceId == id
    ensures forall x :: multiset(ItemsOf(items, id))[x] == if x.invoiceId == id then multiset(items)[x] else 0
  {
    if items != [] {
      ItemsOfSelects(items[1..], id);
      assert items == [items[0]] + items[1..];
    }
  }

  /** Rows whose ids rise with their position: table order is `ORDER BY id ASC`. */
  predicate IdsAscending(items: seq<ItemRow>) {
    forall i, j :: 0 <= i < j < |items| ==> items[i].id < items[j].id
  }

  /** The items of an invoice taken from rows in id order are in id order too, none before the first row. */
  lemma {:induction false} ItemsOfAscending(items: seq<ItemRow>, id: int)
    requires IdsAscending(items)
    ensures IdsAscending(ItemsOf(items, id))
    ensures forall i :: 0 <= i < |ItemsOf(items, id)| ==> items[0].id <= ItemsOf(items, id)[i].id
  {
    if items != [] {
      var tail := items[1..];
      TailAscending(items);
      ItemsOfAscending(tail, id);
      var rest := ItemsOf(tail, id);
      assert forall k :: 0 <= k < |rest| ==> items[0].id < rest[k].id by {
        if tail != [] {
          assert tail[0] == items[1];
        }
      }
      if items[0].invoiceId == id {
        PrependAscending(items[0], rest);
      } else {
        assert ItemsOf(items, id) == rest;
      }
    }
  }

  lemma TailAscending(items: seq<ItemRow>)
    requires IdsAscending(items) && items != []
    ensures IdsAscending(items[1..])
  {
    var tail := items[1..];
    forall i, j | 0 <= i < j < |tail|
      ensures tail[i].id < tail[j].id
    {
      assert tail[i] == items[i + 1] && tail[j] == items[j + 1];
    }
  }

  lemma PrependAscending(x: ItemRow, rest: seq<ItemRow>)
    requires IdsAscending(rest)
    requires forall k :: 0 <= k < |rest| ==> x.id < rest[k].id
    ensures IdsAscending([x] + rest)
    ensures forall i :: 0 <= i < |[x] + rest| ==> x.id <= ([x] + rest)[i].id
  {
    var r := [x] + rest;
    forall i, j | 0 <= i < j < |r|
      ensures r[i].id < r[j].id
    {
      assert r[j] == rest[j - 1];
      if i > 0 {
        assert r[i] == rest[i - 1];
      }
    }
  }

  /** `get_invoice`: the id must be positive and name a stored invoice; its items come with it. */
  function ShowInvoice(t: Tables, get: Fields): Response {
    var id := Param(get, "id", 0);
    if id <= 0 then Failed(InvalidId)
    else match FindInvoice(t.invoices, id)
      case None => Failed(NotFound)
      case Some(inv) => InvoiceDetail(inv, ItemsOf(t.items, id))
  }

  /**
   * `get_invoice` on a valid database lists every stored item of the invoice,
   * as often as it is stored, and in ascending id order (`ORDER BY id ASC`).
   */
  lemma ShowInvoiceLines(db: DbState, get: Fields)
    requires Valid(db)
    ensures var r := ShowInvoice(db.tables, get);
      r.InvoiceDetail? ==>
        && IdsAscending(r.lines)
        && (forall x :: x in r.lines <==> x in db.tables.items && x.invoiceId == Param(get, "id", 0))
        && (forall x: ItemRow :: x.invoiceId == Param(get, "id", 0) ==> multiset(r.lines)[x] == multiset(db.tables.items)[x])
  {
    var id := Param(get, "id", 0);
    ItemsOfAscending(db.tables.items, id);
    ItemsOfSelects(db.tables.items, id);
  }

  lemma {:induction false} FindInvoiceAppend(rows: seq<InvoiceRow>, row: InvoiceRow)
    requires forall i :: 0 <= i < |rows| ==> rows[i].id < row.id
    ensures FindInvoice(rows + [row], row.id) == Some(row)
  {
    if rows != [] {
      assert (rows + [row])[1..] == rows[1..] + [row];
      FindInvoiceAppend(rows[1..], row);
    } else {
      assert rows + [row] == [row];
    }
  }

  lemma {:induction false} ItemsOfConcat(a: seq<ItemRow>, b: seq<ItemRow>, id: int)
    ensures ItemsOf(a + b, id) == ItemsOf(a, id) + ItemsOf(b, id)
  {
    if a != [] {
      assert (a + b)[1..] == a[1..] + b;
      ItemsOfConcat(a[1..], b, id);
    } else {
      assert a + b == b;
    }
  }

  lemma {:induction false} ItemsOfOthers(items: seq<ItemRow>, id: int)
    requires forall i :: 0 <= i < |items| ==> items[i].invoiceId < id
    ensures ItemsOf(items, id) == []
  {
    if items != [] {
      ItemsOfOthers(items[1..], id);
    }
  }

  lemma {:induction false} ItemsOfOwn(first: nat, invoiceId: nat, items: seq<Item>)
    ensures ItemsOf(ItemRows(first, invoiceId, items), invoiceId) == ItemRows(first, invoiceId, items)
    decreases |items|
  {
    if items != [] {
      ItemsOfOwn(first + 1, invoiceId, items[1..]);
    }
  }

  // ---------------------------------------------------------------- the request

  datatype Route = SaveInvoiceRoute | ListInvoicesRoute | ShowInvoiceRoute | SaveTransactionRoute | ListTransactionsRoute | UnknownRoute

  /** `$_POST['action'] ?? $_GET['action'] ?? ''`. */
  function ActionOf(post: Fields, get: Fields): string {
    if "action" in post then post["action"] else Get(get, "action", "")
  }

  function RouteOf(action: string): Route {
    if action == "simpan_invoice" then SaveInvoiceRoute
    else if action == "get_invoices" then ListInvoicesRoute
    else if action == "get_invoice" then ShowInvoiceRoute
    else if action == "simpan_transaksi" then SaveTransactionRoute
    else if action == "get_transaksi" then ListTransactionsRoute
    else UnknownRoute
  }

  /** The switch of the endpoint, before the connection is closed. */
  function Dispatch(db: DbState, post: Fields, items: seq<Fields>, get: Fields, d: Driver): (Response, DbState) {
    match RouteOf(ActionOf(post, get))
    case SaveInvoiceRoute =>
      (match ParseInvoice(post, items)
       case Rejected(f) => (Failed(f), db)
       case Accepted(req) => SaveInvoice(db, req, d))
    case ListInvoicesRoute => (ListInvoices(db.tables, get, d), db)
    case ShowInvoiceRoute => (ShowInvoice(db.tables, get), db)
    case SaveTransactionRoute => SaveTransaction(db, post, d)
    case ListTransactionsRoute => (ListTransactions(db.tables, get, d), db)
    case UnknownRoute => (Failed(UnknownAction), db)
  }

  /** One request to the endpoint; closing the connection at its end discards a transaction left open. */
  function Respond(db: DbState, post: Fields, items: seq<Fields>, get: Fields, d: Driver): (Response, DbState) {
    var (r, after) := Dispatch(db, post, items, get, d);
    (r, RollBack(after))
  }

  /** An empty or unknown action fails with "Action tidak dikenal" and touches nothing. */
  lemma UnknownActionFails(db: DbState, post: Fields, items: seq<Fields>, get: Fields, d: Driver)
    requires RouteOf(ActionOf(post, get)) == UnknownRoute
    requires db.savepoint == None
    ensures Respond(db, post, items, get, d) == (Failed(UnknownAction), db)
  {
  }

  lemma EmptyActionIsUnknown()
    ensures RouteOf("") == UnknownRoute
  {
  }

  /** A rejected invoice (missing field, total not positive, DP above total) changes nothing, counters included. */
  lemma RejectedInvoiceChangesNothing(db: DbState, post: Fields, items: seq<Fields>, get: Fields, d: Driver)
    requires RouteOf(ActionOf(post, get)) == SaveInvoiceRoute
    requires ParseInvoice(post, items).Rejected?
    requires db.savepoint == None
    ensures Respond(db, post, items, get, d) == (Failed(ParseInvoice(post, items).failure), db)
  {
  }

  /**
   * Every id is positive and below its table's counter, every item belongs to
   * an invoice id already handed out, and the item rows are stored in id order.
   */
  predicate Valid(db: DbState) {
    && db.savepoint == None
    && db.next.invoice >= 1 && db.next.item >= 1 && db.next.transaction >= 1
    && (forall i :: 0 <= i < |db.tables.invoices| ==> 1 <= db.tables.invoices[i].id < db.next.invoice)
    && (forall i :: 0 <= i < |db.tables.items| ==>
          1 <= db.tables.items[i].id < db.next.item && 1 <= db.tables.items[i].invoiceId < db.next.invoice)
    && IdsAscending(db.tables.items)
    && (forall i :: 0 <= i < |db.tables.transactions| ==> 1 <= db.tables.transactions[i].id < db.next.transaction)
  }

  /** Saving an invoice keeps the database valid. */
  lemma SaveInvoiceKeepsValid(db: DbState, req: InvoiceRequest, d: Driver)
    requires Valid(db)
    ensures Valid(RollBack(SaveInvoice(db, req, d).1))
  {
    InvoiceAllOrNothing(db, req, d);
    var (r, after) := SaveInvoice(db, req, d);
    if !Rejects(d, 0) {
      SaveItemsOutcome(InsertInvoice(Begin(db), req), db.next.invoice, req.items, 0, d);
    }
    var c := RollBack(after);
    assert c.next.invoice >= db.next.invoice && c.next.item >= db.next.item && c.next.transaction == db.next.transaction;
    if r.InvoiceSaved? {
      var s := StopFrom(req.items, 0, d);
      assert c.next == db.next.(invoice := db.next.invoice + 1, item := db.next.item + |req.items|);
      ItemRowsFacts(db.next.item, db.next.invoice, req.items);
      var added := ItemRows(db.next.item, db.next.invoice, req.items);
      assert forall i :: 0 <= i < |added| ==>
        1 <= added[i].id < c.next.item && 1 <= added[i].invoiceId < c.next.invoice;
    }
  }

  /** Every request keeps the database valid. */
  lemma RespondKeepsValid(db: DbState, post: Fields, items: seq<Fields>, get: Fields, d: Driver)
    requires Valid(db)
    ensures Valid(Respond(db, post, items, get, d).1)
  {
    match RouteOf(ActionOf(post, get))
    case SaveInvoiceRoute =>
      if ParseInvoice(post, items).Accepted? {
        SaveInvoiceKeepsValid(db, ParseInvoice(post, items).value, d);
      }
    case SaveTransactionRoute =>
      SaveTransactionKeepsValid(db, post, d);
    case _ =>
  }

  /** Saving a transaction keeps the database valid. */
  lemma SaveTransactionKeepsValid(db: DbState, post: Fields, d: Driver)
    requires Valid(db)
    ensures Valid(SaveTransaction(db, post, d).1)
  {
    if TransactionRefusal(post, d).None? {
      var row := TransactionRowOf(db.next.transaction, post);
      assert row.id == db.next.transaction;
    }
  }

  /**
   * A saved invoice reads back: `get_invoice` with the id the save answered
   * finds the invoice as saved and exactly its items, in insertion order, for
   * every id a PHP integer can hold.
   */
  lemma SavedInvoiceReadsBack(db: DbState, req: InvoiceRequest, d: Driver)
    requires Valid(db)
    ensures var (r, after) := SaveInvoice(db, req, d);
      r.InvoiceSaved? && r.invoiceId <= PhpIntMax ==>
        ShowInvoice(RollBack(after).tables, map["id" := NatToString(r.invoiceId)])
          == InvoiceDetail(InvoiceRowOf(r.invoiceId, req), ItemRows(db.next.item, r.invoiceId, req.items))
  {
    InvoiceAllOrNothing(db, req, d);
    var (r, after) := SaveInvoice(db, req, d);
    if r.InvoiceSaved? && r.invoiceId <= PhpIntMax {
      AppendedReadsBack(db.tables, db.next.invoice, db.next.item, req);
    }
  }

  /** The read-back on the tables alone: an invoice and its items appended under a fresh id are what `get_invoice` finds for it. */
  lemma AppendedReadsBack(t: Tables, id: nat, first: nat, req: InvoiceRequest)
    requires 1 <= id <= PhpIntMax
    requires forall i :: 0 <= i < |t.invoices| ==> t.invoices[i].id < id
    requires forall i :: 0 <= i < |t.items| ==> t.items[i].invoiceId < id
    ensures ShowInvoice(Tables(t.invoices + [InvoiceRowOf(id, req)], t.items + ItemRows(first, id, req.items), t.transactions),
                        map["id" := NatToString(id)])
         == InvoiceDetail(InvoiceRowOf(id, req), ItemRows(first, id, req.items))
  {
    IntValReadsBack(id);
    FindInvoiceAppend(t.invoices, InvoiceRowOf(id, req));
    ItemsOfConcat(t.items, ItemRows(first, id, req.items), id);
    ItemsOfOthers(t.items, id);
    ItemsOfOwn(first, id, req.items);
  }

  /** The read actions change nothing at all. */
  lemma ReadsChangeNothing(db: DbState, post: Fields, items: seq<Fields>, get: Fields, d: Driver)
    requires db.savepoint == None
    requires RouteOf(ActionOf(post, get)) in {ListInvoicesRoute, ShowInvoiceRoute, ListTransactionsRoute}
    ensures Respond(db, post, items, get, d).1 == db
  {
  }

  // ---------------------------------------------------------------- the connection

  /** The database connection of one request after another. */
  class Database {
    var tables: Tables
    var next: Ids
    var savepoint: Option<Tables>

    function State(): DbState
      reads this
    {
      DbState(tables, next, savepoint)
    }

    /** Empty tables whose auto-increment counters start at 1. */
    constructor ()
      ensures State() == DbState(Tables([], [], []), Ids(1, 1, 1), None)
      ensures Valid(State())
    {
      tables := Tables([], [], []);
      next := Ids(1, 1, 1);
      savepoint := None;
    }

    /** `simpan_invoice` from `beginTransaction` on, with its item loop. */
    method SimpanInvoice(req: InvoiceRequest, d: Driver) returns (r: Response)
      requires savepoint == None
      modifies this
      ensures (r, State()) == SaveInvoice(old(State()), req, d)
    {
      savepoint := Some(tables);
      if Rejects(d, 0) {
        tables := savepoint.value;
        savepoint := None;
        return Failed(DatabaseError(d.message));
      }
      var invoiceId := next.invoice;
      tables := tables.(invoices := tables.invoices + [InvoiceRowOf(invoiceId, req)]);
      next := next.(invoice := invoiceId + 1);
      ghost var start := State();
      var k := 0;
      while k < |req.items|
        invariant k <= |req.items|
        invariant savepoint.Some?
        invariant SaveItems(State(), invoiceId, req.items, k, d) == SaveItems(start, invoiceId, req.items, 0, d)
        decreases |req.items| - k
      {
        var it := req.items[k];
        if it.price < 0.0 {
          return Failed(NegativePrice);
        }
        if Rejects(d, k + 1) {
          tables := savepoint.value;
          savepoint := None;
          return Failed(DatabaseError(d.message));
        }
        tables := tables.(items := tables.items + [ItemRowOf(next.item, invoiceId, it)]);
        next := next.(item := next.item + 1);
        k := k + 1;
      }
      savepoint := None;
      return InvoiceSaved(invoiceId);
    }

    /** `simpan_transaksi`. */
    method SimpanTransaksi(post: Fields, d: Driver) returns (r: Response)
      requires savepoint == None
      modifies this
      ensures (r, State()) == SaveTransaction(old(State()), post, d)
    {
      var refusal := CheckTransaction(post, d);
      if refusal.Some? {
        r := Failed(refusal.value);
      } else {
        var id := next.transaction;
        var row := TransactionRowOf(id, post);
        tables := tables.(transactions := tables.transactions + [row]);
        next := next.(transaction := id + 1);
        r := TransactionSaved(id);
      }
    }

    /** One request, from reading the action to closing the connection. */
    method HandleRequest(post: Fields, items: seq<Fields>, get: Fields, d: Driver) returns (r: Response)
      requires savepoint == None
      modifies this
      ensures (r, State()) == Respond(old(State()), post, items, get, d)
      ensures savepoint == None
    {
      var route := RouteOf(ActionOf(post, get));
      match route {
        case SaveInvoiceRoute =>
          var missing := ValidateInput(post, InvoiceFields);
          if missing.Some? {
            r := Failed(missing.value);
          } else {
            var parsed := ParseInvoice(post, items);
            if parsed.Rejected? {
              r := Failed(parsed.failure);
            } else {
              r := SimpanInvoice(parsed.value, d);
            }
          }
        case ListInvoicesRoute =>
          r := ListInvoices(tables, get, d);
        case ShowInvoiceRoute =>
          r := ShowInvoice(tables, get);
        case SaveTransactionRoute =>
          r := SimpanTransaksi(post, d);
        case ListTransactionsRoute =>
          r := ListTransactions(tables, get, d);
        case UnknownRoute =>
          r := Failed(UnknownAction);
      }
      if savepoint.Some? {
        tables := savepoint.value;
        savepoint := None;
      }
    }
  }
}
