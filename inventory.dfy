/** The inventory stock ledger: a table of items keyed by record id, with a
    unique human-readable `itemId`, and an append-only audit log. Every
    mutating operation either fails and changes nothing, or changes the table
    and appends exactly one log entry (the database transaction). Creation
    timestamps are modelled by the record ids, which a counter hands out in
    creation order, so "newest created first" is "highest record id first". */
module Inventory {
  import opened Common
  import opened Text
  import opened Seqs
  import opened Schemas

  datatype Item = Item(
    id: RecordId, itemId: string, name: string, itemType: ItemType, price: int,
    quantity: nat, minStock: nat, status: ItemStatus,
    notes: Option<string>, imageUrl: Option<string>, createdBy: Option<UserId>)

  datatype Action = Created | Updated | Deleted | StockAdded | StockRemoved

  /** What a log entry records as old or new value: a whole item, or only a
      quantity (stock adjustments). */
  datatype Snapshot = Whole(item: Item) | QuantityOnly(quantity: nat)

  datatype LogEntry = LogEntry(
    record: RecordId, userId: Option<UserId>, action: Action,
    quantity: Option<nat>, notes: Option<string>,
    oldValue: Option<Snapshot>, newValue: Option<Snapshot>)

  // ---------------------------------------------------------------------------
  // The stock rule
  // ---------------------------------------------------------------------------

  /** The status a stock adjustment assigns, from the new quantity and the
      item's minimum stock alone. */
  function DeriveStatus(quantity: nat, minStock: nat): (st: ItemStatus)
    ensures st == OutOfStock <==> quantity == 0
    ensures st == LowStock <==> 0 < quantity < minStock
    ensures st == InStock <==> quantity > 0 && quantity >= minStock
    ensures st != Discontinued
  {
    if quantity == 0 then OutOfStock else if quantity < minStock then LowStock else InStock
  }

  /** More stock never gives a worse derived status: an item in stock stays
      in stock, and one out of stock had no more than zero before. */
  lemma StatusMonotone(q1: nat, q2: nat, minStock: nat)
    requires q1 <= q2
    ensures DeriveStatus(q1, minStock) == InStock ==> DeriveStatus(q2, minStock) == InStock
    ensures DeriveStatus(q2, minStock) == OutOfStock ==> DeriveStatus(q1, minStock) == OutOfStock
    ensures DeriveStatus(q1, minStock) == LowStock ==> DeriveStatus(q2, minStock) != OutOfStock
  {
  }

  /** The seeded item MAT-001 (5 in stock, minimum 10) is low on stock, and an
      item with minimum 5 is out of, low on and in stock at 0, 3 and 10. */
  lemma StatusExamples()
    ensures DeriveStatus(5, 10) == LowStock
    ensures DeriveStatus(0, 5) == OutOfStock
    ensures DeriveStatus(3, 5) == LowStock
    ensures DeriveStatus(10, 5) == InStock
  {
  }

  // ---------------------------------------------------------------------------
  // Update merging
  // ---------------------------------------------------------------------------

  /** Apply the fields an update body supplies; the others keep their values.
      Status and quantity are stored as given, without derivation. */
  function Merge(item: Item, ch: ItemChanges): (r: Item)
    ensures r.id == item.id && r.itemId == item.itemId && r.createdBy == item.createdBy
    ensures r.name == if ch.name.Some? then ch.name.value else item.name
    ensures r.itemType == if ch.itemType.Some? then ch.itemType.value else item.itemType
    ensures r.price == if ch.price.Some? then ch.price.value else item.price
    ensures r.quantity == if ch.quantity.Some? then ch.quantity.value else item.quantity
    ensures r.minStock == if ch.minStock.Some? then ch.minStock.value else item.minStock
    ensures r.status == if ch.status.Some? then ch.status.value else item.status
    ensures r.notes == if ch.notes.Some? then ch.notes else item.notes
    ensures r.imageUrl == if ch.imageUrl.Some? then ch.imageUrl else item.imageUrl
  {
    item.(
      name := ch.name.GetOr(item.name),
      itemType := ch.itemType.GetOr(item.itemType),
      price := ch.price.GetOr(item.price),
      quantity := ch.quantity.GetOr(item.quantity),
      minStock := ch.minStock.GetOr(item.minStock),
      status := ch.status.GetOr(item.status),
      notes := if ch.notes.Some? then ch.notes else item.notes,
      imageUrl := if ch.imageUrl.Some? then ch.imageUrl else item.imageUrl)
  }

  lemma MergeIdempotent(item: Item, ch: ItemChanges)
    ensures Merge(Merge(item, ch), ch) == Merge(item, ch)
  {
  }

  /** An update stores the status it is given, whatever quantity it sets:
      a DISCONTINUED item updated to quantity 5 stays DISCONTINUED, where a
      stock adjustment to the same quantity would derive another status. */
  lemma UpdateDoesNotDeriveStatus(item: Item, q: nat)
    requires item.status == Discontinued
    ensures Merge(item, ItemChanges(None, None, None, Some(q), None, Some(Discontinued), None, None)).status == Discontinued
    ensures Merge(item, ItemChanges(None, None, None, Some(q), None, None, None, None)).status == Discontinued
    ensures DeriveStatus(q, item.minStock) != Discontinued
  {
  }

  lemma MergeNothing(item: Item)
    ensures Merge(item, ItemChanges(None, None, None, None, None, None, None, None)) == item
  {
  }

  // ---------------------------------------------------------------------------
  // Reading the table
  // ---------------------------------------------------------------------------

  /** The items with record id below `bound`, newest (highest id) first. */
  function NewestFirst(items: map<RecordId, Item>, bound: nat): seq<Item>
    decreases bound
  {
    if bound == 0 then []
    else (if bound - 1 in items then [items[bound - 1]] else []) + NewestFirst(items, bound - 1)
  }

  ghost predicate IdsAreKeys(items: map<RecordId, Item>) {
    forall k :: k in items ==> items[k].id == k
  }

  /** `s` lists every item of the table below `bound`, each taken from the
      table, by strictly decreasing record id. */
  ghost predicate Enumerates(items: map<RecordId, Item>, bound: nat, s: seq<Item>) {
    && (forall i :: 0 <= i < |s| ==> s[i].id < bound && s[i].id in items && items[s[i].id] == s[i])
    && (forall i, j :: 0 <= i < j < |s| ==> s[i].id > s[j].id)
    && (forall k :: k in items && k < bound ==> items[k] in s)
  }

  lemma {:induction false} NewestFirstFacts(items: map<RecordId, Item>, bound: nat)
    requires IdsAreKeys(items)
    ensures Enumerates(items, bound, NewestFirst(items, bound))
    decreases bound
  {
    if bound > 0 {
      NewestFirstFacts(items, bound - 1);
      if bound - 1 in items {
        EnumeratesCons(items, bound - 1, NewestFirst(items, bound - 1));
      }
    }
  }

  /** Putting the item at `bound` before an enumeration below `bound`
      enumerates below `bound + 1`. */
  lemma EnumeratesCons(items: map<RecordId, Item>, bound: nat, rest: seq<Item>)
    requires IdsAreKeys(items) && bound in items
    requires Enumerates(items, bound, rest)
    ensures Enumerates(items, bound + 1, [items[bound]] + rest)
  {
    var s := [items[bound]] + rest;
    assert forall i :: 1 <= i < |s| ==> s[i] == rest[i - 1];
    assert forall i :: 0 <= i < |s| ==> s[i].id < bound + 1 && s[i].id in items && items[s[i].id] == s[i];
    assert forall i, j :: 0 <= i < j < |s| ==> s[i].id > s[j].id;
  }

  lemma {:induction false} NewestFirstOfEmpty(bound: nat)
    ensures NewestFirst(map[], bound) == []
    decreases bound
  {
    if bound > 0 {
      NewestFirstOfEmpty(bound - 1);
    }
  }

  /** The record ids below `bound` whose item satisfies `p`. */
  function KeysBelow(items: map<RecordId, Item>, bound: nat, p: Item -> bool): set<RecordId> {
    set k | k in items && k < bound && p(items[k])
  }

  /** The record ids whose item satisfies `p`: what a count query counts. */
  function KeysWhere(items: map<RecordId, Item>, p: Item -> bool): set<RecordId> {
    set k | k in items && p(items[k])
  }

  lemma KeysBelowAll(items: map<RecordId, Item>, bound: nat, p: Item -> bool)
    requires forall k :: k in items ==> k < bound
    ensures KeysBelow(items, bound, p) == KeysWhere(items, p)
  {
  }

  /** Filtering the enumeration counts the same items as the count query. */
  lemma {:induction false} FilteredCount(items: map<RecordId, Item>, bound: nat, p: Item -> bool)
    ensures |Filter(NewestFirst(items, bound), p)| == |KeysBelow(items, bound, p)|
    decreases bound
  {
    if bound == 0 {
      assert KeysBelow(items, bound, p) == {};
    } else {
      FilteredCount(items, bound - 1, p);
      var head := if bound - 1 in items then [items[bound - 1]] else [];
      assert NewestFirst(items, bound) == head + NewestFirst(items, bound - 1);
      FilterAppend(head, NewestFirst(items, bound - 1), p);
      KeysBelowStep(items, bound - 1, p);
      if bound - 1 in items && p(items[bound - 1]) {
        assert Filter(head, p) == head;
      } else {
        assert Filter(head, p) == [];
      }
    }
  }

  /** Raising the bound by one adds the record at the old bound, if it is
      there and satisfies `p`. */
  lemma KeysBelowStep(items: map<RecordId, Item>, bound: nat, p: Item -> bool)
    ensures bound in items && p(items[bound]) ==>
      KeysBelow(items, bound + 1, p) == KeysBelow(items, bound, p) + {bound}
      && |KeysBelow(items, bound + 1, p)| == |KeysBelow(items, bound, p)| + 1
    ensures !(bound in items && p(items[bound])) ==> KeysBelow(items, bound + 1, p) == KeysBelow(items, bound, p)
  {
    if bound in items && p(items[bound]) {
      assert KeysBelow(items, bound + 1, p) == KeysBelow(items, bound, p) + {bound};
      assert bound !in KeysBelow(items, bound, p);
    } else {
      assert KeysBelow(items, bound + 1, p) == KeysBelow(items, bound, p);
    }
  }

  /** The `where` clause of the list query. A filter is applied only when it
      is present and non-empty; the search looks, ignoring ASCII case, for
      the text in the name, the itemId or the notes; type and status compare
      by the enumeration's name. */
  datatype ItemFilter = ItemFilter(search: Option<string>, itemType: Option<string>, status: Option<string>)

  predicate Given(o: Option<string>) { o.Some? && o.value != "" }

  predicate SearchHits(x: Item, search: string) {
    var needle := ToLower(search);
    || Contains(ToLower(x.name), needle)
    || Contains(ToLower(x.itemId), needle)
    || (x.notes.Some? && Contains(ToLower(x.notes.value), needle))
  }

  /** With no filter given every item matches; a type or status filter that
      names no member of its enumeration matches no item. */
  function MatchesFilter(x: Item, f: ItemFilter): (b: bool)
    ensures !Given(f.search) && !Given(f.itemType) && !Given(f.status) ==> b
    ensures b && Given(f.itemType) ==> f.itemType.value in TypeNames
    ensures b && Given(f.status) ==> f.status.value in StatusNames
  {
    EnumRoundTrips(x.itemType, x.status, Admin);
    && (Given(f.search) ==> SearchHits(x, f.search.value))
    && (Given(f.itemType) ==> TypeName(x.itemType) == f.itemType.value)
    && (Given(f.status) ==> StatusName(x.status) == f.status.value)
  }

  /** The database client refuses a type or status filter that names no
      member of the enumeration. */
  predicate FilterAccepted(f: ItemFilter) {
    && (Given(f.itemType) ==> f.itemType.value in TypeNames)
    && (Given(f.status) ==> f.status.value in StatusNames)
  }

  /** Every matching item, newest first (before paging). */
  function Matches(f: ItemFilter): Item -> bool {
    x => MatchesFilter(x, f)
  }

  function Matching(items: map<RecordId, Item>, bound: nat, f: ItemFilter): seq<Item> {
    Filter(NewestFirst(items, bound), Matches(f))
  }

  /** The page of `all` that skips `skip` items and takes at most `take`. */
  function Window<T>(all: seq<T>, skip: nat, take: nat): (r: seq<T>)
    ensures |r| <= take
    ensures forall i :: 0 <= i < |r| ==> skip + i < |all| && r[i] == all[skip + i]
    ensures forall x :: x in r ==> x in all
    ensures |r| == if skip >= |all| then 0 else if take < |all| - skip then take else |all| - skip
  {
    var lo := if skip < |all| then skip else |all|;
    var hi := if skip + take < |all| then skip + take else |all|;
    all[lo..hi]
  }

  /** `Math.ceil(total / limit)`; a zero limit gives Infinity or NaN, which
      the JSON response carries as null (None). */
  function PageCount(total: nat, limit: nat): (pages: Option<nat>)
    ensures pages.None? <==> limit == 0
    ensures pages.Some? ==> total <= pages.value * limit
    ensures pages.Some? && pages.value > 0 ==> (pages.value - 1) * limit < total
  {
    if limit == 0 then None
    else
      DivBounds(total + limit - 1, limit);
      Some((total + limit - 1) / limit)
  }

  lemma DivBounds(a: nat, b: nat)
    requires b > 0
    ensures (a / b) * b <= a < (a / b + 1) * b
  {
    assert a == (a / b) * b + a % b;
  }

  /** Every item of the full ordering is on page i / limit + 1. */
  lemma PageOfEach<T>(all: seq<T>, limit: nat, i: nat)
    requires limit > 0 && i < |all|
    ensures all[i] in Window(all, (i / limit) * limit, limit)
  {
    var skip := (i / limit) * limit;
    assert skip <= i < skip + limit;
    var w := Window(all, skip, limit);
    assert w == all[skip..if skip + limit < |all| then skip + limit else |all|];
    assert w[i - skip] == all[i];
  }

  /** A page of a list ordered by decreasing record id is ordered the same way. */
  lemma WindowKeepsOrder(all: seq<Item>, skip: nat, take: nat)
    requires forall i, j :: 0 <= i < j < |all| ==> all[i].id > all[j].id
    ensures forall i, j :: 0 <= i < j < |Window(all, skip, take)| ==>
      Window(all, skip, take)[i].id > Window(all, skip, take)[j].id
  {
    var w := Window(all, skip, take);
    forall i, j | 0 <= i < j < |w|
      ensures w[i].id > w[j].id
    {
      assert w[i] == all[skip + i] && w[j] == all[skip + j];
    }
  }

  datatype ItemPage = ItemPage(items: seq<Item>, page: int, limit: int, total: nat, pages: Option<nat>)

  datatype ListQuery = ListQuery(filter: ItemFilter, page: Option<string>, limit: Option<string>)

  predicate DigitString(s: string) { |s| > 0 && AllDigits(s) }

  /** A page or limit parameter, with its default, as a number. */
  function QueryNumber(param: Option<string>, default: string): nat
    requires param.Some? ==> DigitString(param.value)
    requires DigitString(default)
  {
    DecimalValue(param.GetOr(default))
  }

  /** The number is what parseInt reads from the parameter or its default. */
  lemma QueryNumberIsParseInt(param: Option<string>, default: string)
    requires param.Some? ==> DigitString(param.value)
    requires DigitString(default)
    ensures ParseInt(param.GetOr(default)) == Some(QueryNumber(param, default))
  {
    ParseIntOfDigits(param.GetOr(default));
  }

  predicate IsAlert(x: Item) { x.status == LowStock || x.status == OutOfStock }

  function QuantityOf(x: Item): int { x.quantity }

  datatype InventoryStats = InventoryStats(total: nat, inStock: nat, lowStock: nat, outOfStock: nat, totalItems: nat)

  datatype ItemDetail = ItemDetail(item: Item, logs: seq<LogEntry>)

  /** The newest `n` log entries of one record, newest first. */
  function RecentLogs(log: seq<LogEntry>, id: RecordId, n: nat): (r: seq<LogEntry>)
    ensures |r| <= n
    ensures forall e :: e in r ==> e in log && e.record == id
    decreases |log|
  {
    if n == 0 || log == [] then []
    else if log[|log| - 1].record == id then [log[|log| - 1]] + RecentLogs(log[..|log| - 1], id, n - 1)
    else RecentLogs(log[..|log| - 1], id, n)
  }

  function EntriesFor(log: seq<LogEntry>, id: RecordId): seq<LogEntry> {
    Filter(log, (e: LogEntry) => e.record == id)
  }

  /** The entry just appended for a record comes first among its recent logs. */
  lemma NewestLogFirst(log: seq<LogEntry>, e: LogEntry, n: nat)
    requires n > 0
    ensures RecentLogs(log + [e], e.record, n) == [e] + RecentLogs(log, e.record, n - 1)
  {
    assert (log + [e])[..|log|] == log;
  }

  /** The entries shown are the record's `n` newest, newest first. */
  lemma {:induction false} RecentLogsAreNewest(log: seq<LogEntry>, id: RecordId, n: nat)
    ensures RecentLogs(log, id, n) == Latest(EntriesFor(log, id), n)
    decreases |log|
  {
    if log == [] {
      assert EntriesFor(log, id) == [];
    } else if n > 0 {
      var init, last := log[..|log| - 1], log[|log| - 1];
      LogSnoc(log, id, n);
      if last.record == id {
        RecentLogsAreNewest(init, id, n - 1);
        LatestSnoc(EntriesFor(init, id), last, n);
      } else {
        RecentLogsAreNewest(init, id, n);
      }
    }
  }

  /** One more log entry: both the recent entries and the record's entries
      grow by it when it is about the record, and stay put otherwise. */
  lemma LogSnoc(log: seq<LogEntry>, id: RecordId, n: nat)
    requires n > 0 && log != []
    ensures var init, e := log[..|log| - 1], log[|log| - 1];
      && (e.record == id ==> RecentLogs(log, id, n) == [e] + RecentLogs(init, id, n - 1))
      && (e.record == id ==> EntriesFor(log, id) == EntriesFor(init, id) + [e])
      && (e.record != id ==> RecentLogs(log, id, n) == RecentLogs(init, id, n))
      && (e.record != id ==> EntriesFor(log, id) == EntriesFor(init, id))
  {
    var init, e := log[..|log| - 1], log[|log| - 1];
    assert log == init + [e];
    FilterAppend(init, [e], (x: LogEntry) => x.record == id);
    assert [e][1..] == [];
    if e.record != id {
      assert EntriesFor(init, id) + [] == EntriesFor(init, id);
    }
  }

  /** Up to `n` entries are returned: all of the record's entries when it has
      no more than `n`. */
  lemma {:induction false} RecentLogsCount(log: seq<LogEntry>, id: RecordId, n: nat)
    ensures |RecentLogs(log, id, n)| == if |EntriesFor(log, id)| < n then |EntriesFor(log, id)| else n
    decreases |log|
  {
    if log != [] {
      var init, last := log[..|log| - 1], log[|log| - 1];
      assert log == init + [last];
      FilterAppend(init, [last], (e: LogEntry) => e.record == id);
      assert |EntriesFor(log, id)| == |EntriesFor(init, id)| + (if last.record == id then 1 else 0);
      if n > 0 {
        if last.record == id {
          RecentLogsCount(init, id, n - 1);
        } else {
          RecentLogsCount(init, id, n);
        }
      }
    }
  }

  // ---------------------------------------------------------------------------
  // The ledger
  // ---------------------------------------------------------------------------

  const NotFound: Failure := AppError(404, "Item not found")
  const DuplicateItemId: Failure := AppError(409, "Item with this ID already exists")
  const InsufficientStock: Failure := AppError(400, "Insufficient stock")

  class Ledger {
    var items: map<RecordId, Item>
    var nextId: RecordId
    var log: seq<LogEntry>

    /** Record ids are handed out below `nextId` and stored in their item;
        no two items share an itemId. Nothing ties status to quantity. */
    ghost predicate Valid()
      reads this
    {
      && (forall k :: k in items ==> k < nextId)
      && IdsAreKeys(items)
      && (forall a, b :: a in items && b in items && items[a].itemId == items[b].itemId ==> a == b)
    }

    constructor ()
      ensures Valid() && items == map[] && nextId == 0 && log == []
    {
      items := map[];
      nextId := 0;
      log := [];
    }

    predicate HasItemId(itemId: string)
      reads this
    {
      exists k :: k in items && items[k].itemId == itemId
    }

    /** GET /inventory/:id: the item with its ten newest log entries. */
    function Get(id: RecordId): (r: Result<ItemDetail, Failure>)
      reads this
      ensures r.Err? <==> id !in items
      ensures r.Err? ==> r.error == NotFound
      ensures r.Ok? ==> r.value.item == items[id] && |r.value.logs| <= 10
      ensures r.Ok? ==> forall e :: e in r.value.logs ==> e in log && e.record == id
      ensures r.Ok? ==> r.value.logs == Latest(EntriesFor(log, id), 10)
    {
      RecentLogsAreNewest(log, id, 10);
      if id !in items then Err(NotFound) else Ok(ItemDetail(items[id], RecentLogs(log, id, 10)))
    }

    /** POST /inventory. */
    method Create(raw: RawItem, isUrl: string -> bool, actor: Option<UserId>) returns (r: Result<Item, Failure>)
      requires Valid()
      modifies this
      ensures Valid()
      ensures r.Ok? <==> ParseCreate(raw, isUrl).Ok? && !old(HasItemId(ParseCreate(raw, isUrl).value.itemId))
      ensures ParseCreate(raw, isUrl).Err? ==> r == Err(ValidationFailed)
      ensures ParseCreate(raw, isUrl).Ok? && old(HasItemId(ParseCreate(raw, isUrl).value.itemId)) ==> r == Err(DuplicateItemId)
      ensures r.Err? ==> items == old(items) && nextId == old(nextId) && log == old(log)
      ensures r.Ok? ==>
        var v := ParseCreate(raw, isUrl).value;
        && r.value == Item(old(nextId), v.itemId, v.name, v.itemType, v.price, v.quantity, v.minStock,
                           v.status, v.notes, v.imageUrl, actor)
        && items == old(items)[old(nextId) := r.value]
        && nextId == old(nextId) + 1
        && log == old(log) + [LogEntry(r.value.id, actor, Created, None, None, None, Some(Whole(r.value)))]
    {
      var parsed := ParseCreate(raw, isUrl);
      if parsed.Err? {
        return Err(ValidationFailed);
      }
      var v := parsed.value;
      if exists k | k in items :: items[k].itemId == v.itemId {
        return Err(DuplicateItemId);
      }
      var item := Item(nextId, v.itemId, v.name, v.itemType, v.price, v.quantity, v.minStock,
                       v.status, v.notes, v.imageUrl, actor);
      items := items[nextId := item];
      log := log + [LogEntry(item.id, actor, Created, None, None, None, Some(Whole(item)))];
      nextId := nextId + 1;
      r := Ok(item);
    }

    /** PUT /inventory/:id. The body is validated before the item is looked up. */
    method Update(id: RecordId, raw: RawItem, isUrl: string -> bool, actor: Option<UserId>) returns (r: Result<Item, Failure>)
      requires Valid()
      modifies this
      ensures Valid()
      ensures r.Ok? <==> ParseUpdate(raw, isUrl).Ok? && id in old(items)
      ensures ParseUpdate(raw, isUrl).Err? ==> r == Err(ValidationFailed)
      ensures ParseUpdate(raw, isUrl).Ok? && id !in old(items) ==> r == Err(NotFound)
      ensures r.Err? ==> items == old(items) && nextId == old(nextId) && log == old(log)
      ensures r.Ok? ==>
        && r.value == Merge(old(items)[id], ParseUpdate(raw, isUrl).value)
        && items == old(items)[id := r.value]
        && nextId == old(nextId)
        && log == old(log) + [LogEntry(id, actor, Updated, None, None, Some(Whole(old(items)[id])), Some(Whole(r.value)))]
    {
      var parsed := ParseUpdate(raw, isUrl);
      if parsed.Err? {
        return Err(ValidationFailed);
      }
      if id !in items {
        return Err(NotFound);
      }
      var oldItem := items[id];
      var updated := Merge(oldItem, parsed.value);
      items := items[id := updated];
      log := log + [LogEntry(id, actor, Updated, None, None, Some(Whole(oldItem)), Some(Whole(updated)))];
      r := Ok(updated);
    }

    /** DELETE /inventory/:id: the log keeps the last state of the item. */
    method Delete(id: RecordId, actor: Option<UserId>) returns (r: Result<(), Failure>)
      requires Valid()
      modifies this
      ensures Valid()
      ensures r.Err? <==> id !in old(items)
      ensures r.Err? ==> r.error == NotFound && items == old(items) && nextId == old(nextId) && log == old(log)
      ensures r.Ok? ==>
        && items == old(items) - {id}
        && nextId == old(nextId)
        && log == old(log) + [LogEntry(id, actor, Deleted, None, None, Some(Whole(old(items)[id])), None)]
    {
      if id !in items {
        return Err(NotFound);
      }
      var item := items[id];
      log := log + [LogEntry(id, actor, Deleted, None, None, Some(Whole(item)), None)];
      items := items - {id};
      r := Ok(());
    }

    /** POST /inventory/:id/adjust: add a signed delta to the quantity. */
    method AdjustStock(id: RecordId, raw: RawAdjustment, actor: Option<UserId>) returns (r: Result<Item, Failure>)
      requires Valid()
      modifies this
      ensures Valid()
      ensures raw.quantity.None? ==> r == Err(ValidationFailed)
      ensures raw.quantity.Some? && id !in old(items) ==> r == Err(NotFound)
      ensures raw.quantity.Some? && id in old(items) && old(items)[id].quantity + raw.quantity.value < 0 ==>
        r == Err(InsufficientStock)
      ensures r.Ok? <==> raw.quantity.Some? && id in old(items) && old(items)[id].quantity + raw.quantity.value >= 0
      ensures r.Err? ==> items == old(items) && nextId == old(nextId) && log == old(log)
      ensures r.Ok? ==>
        var before := old(items)[id];
        var delta := raw.quantity.value;
        var newQuantity: nat := before.quantity + delta;
        && r.value == before.(quantity := newQuantity, status := DeriveStatus(newQuantity, before.minStock))
        && items == old(items)[id := r.value]
        && nextId == old(nextId)
        && log == old(log) + [LogEntry(id, actor, if delta > 0 then StockAdded else StockRemoved,
                                       Some(if delta < 0 then -delta else delta), raw.notes,
                                       Some(QuantityOnly(before.quantity)), Some(QuantityOnly(newQuantity)))]
    {
      var parsed := ParseAdjustment(raw);
      if parsed.Err? {
        return Err(ValidationFailed);
      }
      var delta := parsed.value.delta;
      if id !in items {
        return Err(NotFound);
      }
      var item := items[id];
      var newQuantity := item.quantity + delta;
      if newQuantity < 0 {
        return Err(InsufficientStock);
      }
      var newStatus := item.status;
      if newQuantity == 0 {
        newStatus := OutOfStock;
      } else if newQuantity < item.minStock {
        newStatus := LowStock;
      } else {
        newStatus := InStock;
      }
      var updated := item.(quantity := newQuantity, status := newStatus);
      items := items[id := updated];
      var action := if delta > 0 then StockAdded else StockRemoved;
      var magnitude: nat := if delta < 0 then -delta else delta;
      log := log + [LogEntry(id, actor, action, Some(magnitude), parsed.value.notes,
                             Some(QuantityOnly(item.quantity)), Some(QuantityOnly(newQuantity)))];
      r := Ok(updated);
    }

    /** GET /inventory: read the page parameters, then filter, order newest
        first and page. */
    function List(q: ListQuery): (r: Result<ItemPage, Failure>)
      reads this
      requires Valid()
      requires q.page.Some? ==> DigitString(q.page.value)
      requires q.limit.Some? ==> DigitString(q.limit.value)
      ensures r.Err? <==>
        !FilterAccepted(q.filter) || (QueryNumber(q.page, "1") == 0 && QueryNumber(q.limit, "50") > 0)
      ensures r.Err? ==> r.error == QueryRejected
      ensures r.Ok? ==> r.value.page == QueryNumber(q.page, "1") && r.value.limit == QueryNumber(q.limit, "50")
      ensures r.Ok? ==> Skip(r.value.page, r.value.limit) >= 0 && r.value == ListPage(q.filter, r.value.page, r.value.limit)
    {
      var page := QueryNumber(q.page, "1");
      var limit := QueryNumber(q.limit, "50");
      if !FilterAccepted(q.filter) || Skip(page, limit) < 0 then Err(QueryRejected)
      else Ok(ListPage(q.filter, page, limit))
    }

    /** `(page - 1) * limit` rows are skipped. */
    static function Skip(page: nat, limit: nat): (skip: int)
      ensures skip < 0 <==> page == 0 && limit > 0
    {
      (page - 1) * limit
    }

    /** The page the list query returns once its parameters are accepted:
        the matching items newest first, `(page - 1) * limit` of them
        skipped, at most `limit` taken, with the total of all matches. */
    function ListPage(f: ItemFilter, page: nat, limit: nat): (r: ItemPage)
      reads this
      requires Valid()
      requires Skip(page, limit) >= 0
      ensures r.page == page && r.limit == limit
      ensures r.total == |KeysWhere(items, Matches(f))|
      ensures r.pages == PageCount(r.total, limit)
      ensures r.items == Window(Matching(items, nextId, f), Skip(page, limit), limit)
      ensures |r.items| <= limit
      ensures forall x :: x in r.items ==> x in items.Values && MatchesFilter(x, f)
      ensures forall i, j :: 0 <= i < j < |r.items| ==> r.items[i].id > r.items[j].id
    {
      var all := Matching(items, nextId, f);
      var total := |KeysWhere(items, Matches(f))|;
      SelectionFacts(Matches(f));
      var w := Window(all, Skip(page, limit), limit);
      WindowKeepsOrder(all, Skip(page, limit), limit);
      ItemPage(w, page, limit, total, PageCount(total, limit))
    }

    /** Selecting by a predicate from the newest-first enumeration gives each
        item of the table that satisfies it, once, by decreasing record id;
        as many as the count query counts. */
    lemma SelectionFacts(p: Item -> bool)
      requires Valid()
      ensures |Filter(NewestFirst(items, nextId), p)| == |KeysWhere(items, p)|
      ensures forall x :: x in Filter(NewestFirst(items, nextId), p) <==> x in items.Values && p(x)
      ensures forall i, j :: 0 <= i < j < |Filter(NewestFirst(items, nextId), p)| ==>
        Filter(NewestFirst(items, nextId), p)[i].id > Filter(NewestFirst(items, nextId), p)[j].id
    {
      var all := NewestFirst(items, nextId);
      NewestFirstFacts(items, nextId);
      FilteredCount(items, nextId, p);
      KeysBelowAll(items, nextId, p);
      forall x
        ensures x in Filter(all, p) <==> x in items.Values && p(x)
      {
        FilterMembership(all, p, x);
        if x in all {
          var i :| 0 <= i < |all| && all[i] == x;
          assert items[x.id] == x;
        }
      }
      var idx := FilterIsSubsequence(all, p);
      var m := Filter(all, p);
      forall i, j | 0 <= i < j < |m|
        ensures m[i].id > m[j].id
      {
        assert m[i] == all[idx[i]] && m[j] == all[idx[j]];
      }
    }

    /** GET /inventory/alerts: low and out-of-stock items, fewest first. */
    function LowStockAlerts(): (r: seq<Item>)
      reads this
      requires Valid()
      ensures SortedBy(r, QuantityOf)
      ensures forall x :: x in r <==> x in items.Values && IsAlert(x)
      ensures |r| == |KeysWhere(items, IsAlert)|
    {
      var alerts := Filter(NewestFirst(items, nextId), IsAlert);
      SelectionFacts(IsAlert);
      var r := SortBy(alerts, QuantityOf);
      assert |multiset(r)| == |multiset(alerts)|;
      assert forall x :: x in r <==> x in multiset(r);
      r
    }

    function StatusKeys(s: ItemStatus): set<RecordId>
      reads this
    {
      set k | k in items && items[k].status == s
    }

    function CountStatus(s: ItemStatus): nat
      reads this
    {
      |StatusKeys(s)|
    }

    /** GET /inventory/stats. */
    function Stats(): (s: InventoryStats)
      reads this
      requires Valid()
      ensures s.total == |items|
      ensures s.inStock == CountStatus(InStock) && s.lowStock == CountStatus(LowStock)
      ensures s.outOfStock == CountStatus(OutOfStock)
      ensures s.totalItems == Sum(NewestFirst(items, nextId), QuantityOf)
      ensures s.inStock + s.lowStock + s.outOfStock + CountStatus(Discontinued) == s.total
      ensures |items| == 0 ==> s.totalItems == 0
      ensures forall k :: k in items ==> items[k].quantity <= s.totalItems
    {
      StatusPartition();
      QuantitySumFacts();
      InventoryStats(|items|, CountStatus(InStock), CountStatus(LowStock), CountStatus(OutOfStock),
                     Sum(NewestFirst(items, nextId), QuantityOf))
    }

    /** Every item has exactly one of the four statuses. */
    lemma StatusPartition()
      ensures CountStatus(InStock) + CountStatus(LowStock) + CountStatus(OutOfStock) + CountStatus(Discontinued) == |items|
    {
      var a, b, c, d := StatusKeys(InStock), StatusKeys(LowStock), StatusKeys(OutOfStock), StatusKeys(Discontinued);
      var ab := a + b;
      var abc := ab + c;
      assert a * b == {};
      assert |ab| == |a| + |b|;
      assert ab * c == {};
      assert |abc| == |ab| + |c|;
      assert abc * d == {};
      assert |abc + d| == |abc| + |d|;
      forall k | k in items.Keys
        ensures k in abc + d
      {
        match items[k].status
        case InStock => assert k in a;
        case LowStock => assert k in b;
        case OutOfStock => assert k in c;
        case Discontinued => assert k in d;
      }
      assert abc + d == items.Keys;
    }

    lemma QuantitySumFacts()
      requires Valid()
      ensures Sum(NewestFirst(items, nextId), QuantityOf) >= 0
      ensures |items| == 0 ==> Sum(NewestFirst(items, nextId), QuantityOf) == 0
      ensures forall k :: k in items ==> items[k].quantity <= Sum(NewestFirst(items, nextId), QuantityOf)
    {
      var all := NewestFirst(items, nextId);
      NewestFirstFacts(items, nextId);
      SumNonNegative(all, QuantityOf);
      if |items| == 0 {
        assert items == map[];
        NewestFirstOfEmpty(nextId);
      }
      forall k | k in items
        ensures items[k].quantity <= Sum(all, QuantityOf)
      {
        var i :| 0 <= i < |all| && all[i] == items[k];
        SumBoundsTerms(all, QuantityOf, i);
      }
    }
  }

  /** The quantities of the records below `bound`, added up record by record. */
  function QuantityBelow(items: map<RecordId, Item>, bound: nat): int
    decreases bound
  {
    if bound == 0 then 0
    else (if bound - 1 in items then items[bound - 1].quantity else 0) + QuantityBelow(items, bound - 1)
  }

  /** The quantity sum over the enumeration is the record-by-record sum. */
  lemma {:induction false} QuantityBelowIsSum(items: map<RecordId, Item>, bound: nat)
    ensures Sum(NewestFirst(items, bound), QuantityOf) == QuantityBelow(items, bound)
    decreases bound
  {
    if bound > 0 {
      SumStep(items, bound);
      QuantityBelowIsSum(items, bound - 1);
    }
  }

  /** A record at or above `bound` does not enter the sum below it. */
  lemma {:induction false} QuantityBelowIgnoresAbove(items: map<RecordId, Item>, bound: nat, id: RecordId, x: Item)
    requires id >= bound
    ensures QuantityBelow(items[id := x], bound) == QuantityBelow(items, bound)
    decreases bound
  {
    if bound > 0 {
      QuantityBelowIgnoresAbove(items, bound - 1, id, x);
    }
  }

  lemma {:induction false} QuantityBelowReplace(items: map<RecordId, Item>, bound: nat, id: RecordId, x: Item)
    requires id in items && id < bound
    ensures QuantityBelow(items[id := x], bound) == QuantityBelow(items, bound) - items[id].quantity + x.quantity
    decreases bound
  {
    if id == bound - 1 {
      QuantityBelowIgnoresAbove(items, bound - 1, id, x);
    } else {
      QuantityBelowReplace(items, bound - 1, id, x);
    }
  }

  /** Replacing one stored item changes the quantity sum by exactly the
      difference of the two quantities. */
  lemma SumAfterReplace(items: map<RecordId, Item>, bound: nat, id: RecordId, x: Item)
    requires id in items && id < bound
    ensures Sum(NewestFirst(items[id := x], bound), QuantityOf) ==
      Sum(NewestFirst(items, bound), QuantityOf) - items[id].quantity + x.quantity
  {
    QuantityBelowIsSum(items, bound);
    QuantityBelowIsSum(items[id := x], bound);
    QuantityBelowReplace(items, bound, id, x);
  }

  /** The quantity sum below `bound` adds the record just below it, if any,
      to the sum below `bound - 1`. */
  lemma SumStep(items: map<RecordId, Item>, bound: nat)
    requires bound > 0
    ensures Sum(NewestFirst(items, bound), QuantityOf) ==
      (if bound - 1 in items then items[bound - 1].quantity else 0) + Sum(NewestFirst(items, bound - 1), QuantityOf)
  {
    var head := if bound - 1 in items then [items[bound - 1]] else [];
    assert NewestFirst(items, bound) == head + NewestFirst(items, bound - 1);
    SumAppend(head, NewestFirst(items, bound - 1), QuantityOf);
    if bound - 1 in items {
      assert head[..0] == [];
    }
  }

  /** A successful stock adjustment moves the stats' total quantity by
      exactly its delta; a failed one leaves the stats as they were. */
  method AdjustmentMovesTotal(ledger: Ledger, id: RecordId, raw: RawAdjustment, actor: Option<UserId>)
    returns (r: Result<Item, Failure>)
    requires ledger.Valid()
    modifies ledger
    ensures ledger.Valid()
    ensures r.Ok? ==> raw.quantity.Some? && ledger.Stats().totalItems == old(ledger.Stats().totalItems) + raw.quantity.value
    ensures r.Err? ==> ledger.Stats() == old(ledger.Stats())
  {
    r := ledger.AdjustStock(id, raw, actor);
    if r.Ok? {
      SumAfterReplace(old(ledger.items), old(ledger.nextId), id, r.value);
    }
  }

  /** After a successful adjustment the item's detail view shows that
      adjustment as its newest log entry. */
  method AdjustmentIsNewestLog(ledger: Ledger, id: RecordId, raw: RawAdjustment, actor: Option<UserId>)
    returns (r: Result<Item, Failure>)
    requires ledger.Valid()
    modifies ledger
    ensures ledger.Valid()
    ensures r.Ok? ==>
      && ledger.Get(id).Ok? && |ledger.Get(id).value.logs| > 0
      && ledger.Get(id).value.logs[0] == ledger.log[|ledger.log| - 1]
    ensures r.Ok? ==> ledger.Get(id).value.item == r.value
  {
    r := ledger.AdjustStock(id, raw, actor);
    if r.Ok? {
      NewestLogFirst(old(ledger.log), ledger.log[|ledger.log| - 1], 10);
    }
  }

  /** Two adjustments of -3 and +5 against an item holding 10 leave 12 in
      stock with two new log entries. */
  method SequentialAdjustments(ledger: Ledger, id: RecordId, actor: Option<UserId>)
    requires ledger.Valid()
    requires id in ledger.items && ledger.items[id].quantity == 10
    modifies ledger
    ensures ledger.Valid()
    ensures id in ledger.items && ledger.items[id].quantity == 12
    ensures |ledger.log| == |old(ledger.log)| + 2
    ensures ledger.log[|ledger.log| - 2].action == StockRemoved && ledger.log[|ledger.log| - 1].action == StockAdded
  {
    var first := ledger.AdjustStock(id, RawAdjustment(Some(-3), None), actor);
    var second := ledger.AdjustStock(id, RawAdjustment(Some(5), None), actor);
  }
}
