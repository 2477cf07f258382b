/** `app/routers/orders.py`: the catalog, the cart, and the pure pricing and
    validation pipeline of `create_order` (the `_fetch_*` and `_assert_*`
    helpers); the row shapes `create_order` inserts and the proof that
    inserting a priced order keeps the tables consistent; the guard of
    `cancel_order`; and the `get_order` / `list_orders` reads. */
module Orders {
  import opened Common
  import opened Tables
  import Listing

  // ---- catalog (read-only input) ----

  datatype MenuItem = MenuItem(name: string, price: int, isActive: bool)

  /** `selection_type`: "single", "multi", or any other text, which no arity rule checks. */
  datatype SelectionType = Single | Multi | OtherSelection(text: string)

  datatype OptionMeta = OptionMeta(key: string, name: string, selectionType: SelectionType, isRequired: bool)

  datatype OptionValue = OptionValue(valueLabel: string, priceDelta: int, isActive: bool)

  datatype Catalog = Catalog(
    menuItems: map<string, MenuItem>,             // menu_items by id
    options: map<string, OptionMeta>,             // menu_item_options by id
    attached: set<(string, string)>,              // menu_item_option_map: (menu item id, option id)
    values: map<(string, string), OptionValue>)   // menu_option_values by (option id, value key)

  // ---- request ----

  datatype SelectedOption = SelectedOption(optionId: string, valueKeys: seq<string>)
  datatype CartItem = CartItem(menuItemId: string, qty: int, selectedOptions: seq<SelectedOption>)
  datatype Cart = Cart(customerId: Option<string>, customerNote: Option<string>, items: seq<CartItem>)

  // ---- priced result ----

  datatype OptionSnapshot = OptionSnapshot(optionKey: string, optionName: string, valueKey: string,
                                           valueLabel: string, priceDelta: int)
  datatype PricedLine = PricedLine(menuItemId: string, nameSnapshot: string, priceSnapshot: int, qty: int,
                                   lineAmount: int, options: seq<OptionSnapshot>)
  datatype PricedOrder = PricedOrder(lines: seq<PricedLine>, totalAmount: int)

  // ---- declarative validity of a cart against the catalog ----

  predicate ArityOk(t: SelectionType, n: nat)
  {
    match t
    case Single => n == 1
    case Multi => n >= 1
    case OtherSelection(_) => true
  }

  ghost predicate ValidSelection(cat: Catalog, menuItemId: string, so: SelectedOption)
  {
    && so.optionId in cat.options
    && (menuItemId, so.optionId) in cat.attached
    && ArityOk(cat.options[so.optionId].selectionType, |so.valueKeys|)
    && forall k :: k in so.valueKeys ==> (so.optionId, k) in cat.values && cat.values[(so.optionId, k)].isActive
  }

  ghost predicate ValidItem(cat: Catalog, item: CartItem)
  {
    && item.menuItemId in cat.menuItems
    && cat.menuItems[item.menuItemId].isActive
    && forall j :: 0 <= j < |item.selectedOptions| ==> ValidSelection(cat, item.menuItemId, item.selectedOptions[j])
  }

  ghost predicate ValidCart(cat: Catalog, cart: Cart)
  {
    && |cart.items| > 0
    && forall i :: 0 <= i < |cart.items| ==> cart.items[i].qty > 0 && ValidItem(cat, cart.items[i])
  }

  // ---- reference sums, straight from the catalog ----

  /** Sum of the catalog deltas of the requested keys, a repeated key counted each time. */
  ghost function KeysDelta(cat: Catalog, optionId: string, keys: seq<string>): int
  {
    if keys == [] then 0
    else
      var k := keys[|keys| - 1];
      KeysDelta(cat, optionId, keys[..|keys| - 1]) + (if (optionId, k) in cat.values then cat.values[(optionId, k)].priceDelta else 0)
  }

  ghost function RequestedDelta(cat: Catalog, sels: seq<SelectedOption>): int
  {
    if sels == [] then 0
    else RequestedDelta(cat, sels[..|sels| - 1]) + KeysDelta(cat, sels[|sels| - 1].optionId, sels[|sels| - 1].valueKeys)
  }

  ghost function RequestedCount(sels: seq<SelectedOption>): nat
  {
    if sels == [] then 0 else RequestedCount(sels[..|sels| - 1]) + |sels[|sels| - 1].valueKeys|
  }

  /** What a line must cost: (catalog price + requested deltas) × qty. */
  ghost function ExpectedLineAmount(cat: Catalog, item: CartItem): int
  {
    var price := if item.menuItemId in cat.menuItems then cat.menuItems[item.menuItemId].price else 0;
    (price + RequestedDelta(cat, item.selectedOptions)) * item.qty
  }

  ghost function ExpectedTotal(cat: Catalog, items: seq<CartItem>): int
  {
    if items == [] then 0 else ExpectedTotal(cat, items[..|items| - 1]) + ExpectedLineAmount(cat, items[|items| - 1])
  }

  /** The snapshot row of one selected key. */
  ghost function SnapshotOf(cat: Catalog, optionId: string, k: string): OptionSnapshot
    requires optionId in cat.options && (optionId, k) in cat.values
  {
    var meta := cat.options[optionId];
    var v := cat.values[(optionId, k)];
    OptionSnapshot(meta.key, meta.name, k, v.valueLabel, v.priceDelta)
  }

  /** The option rows of the requested keys of one option, in request order;
      a key with no catalog row, which no priced line holds, has a blank row. */
  ghost function KeySnapshots(cat: Catalog, optionId: string, keys: seq<string>): (r: seq<OptionSnapshot>)
    ensures |r| == |keys|
  {
    if keys == [] then []
    else
      var k := keys[|keys| - 1];
      KeySnapshots(cat, optionId, keys[..|keys| - 1]) +
        [if optionId in cat.options && (optionId, k) in cat.values then SnapshotOf(cat, optionId, k)
         else OptionSnapshot("", "", k, "", 0)]
  }

  /** The option rows of a line: those of each selected option, in request order. */
  ghost function RequestedSnapshots(cat: Catalog, sels: seq<SelectedOption>): seq<OptionSnapshot>
  {
    if sels == [] then []
    else
      var so := sels[|sels| - 1];
      RequestedSnapshots(cat, sels[..|sels| - 1]) + KeySnapshots(cat, so.optionId, so.valueKeys)
  }

  // ---- the helpers of create_order ----

  /** `_fetch_menu_item`: 404 for an unknown item, 400 for an inactive one. */
  function FetchMenuItem(cat: Catalog, id: string): (r: Result<MenuItem>)
    ensures r.Ok? <==> id in cat.menuItems && cat.menuItems[id].isActive
    ensures r.Ok? ==> r.value == cat.menuItems[id]
    ensures id !in cat.menuItems ==> r == Err(MenuItemNotFound(id))
    ensures id in cat.menuItems && !cat.menuItems[id].isActive ==> r == Err(MenuItemInactive(id))
  {
    if id !in cat.menuItems then Err(MenuItemNotFound(id))
    else if !cat.menuItems[id].isActive then Err(MenuItemInactive(id))
    else Ok(cat.menuItems[id])
  }

  /** `_fetch_option_meta`: 404 for an unknown option. */
  function FetchOptionMeta(cat: Catalog, id: string): (r: Result<OptionMeta>)
    ensures r.Ok? <==> id in cat.options
    ensures r.Ok? ==> r.value == cat.options[id]
    ensures r.Err? ==> r.error == OptionNotFound(id)
  {
    if id in cat.options then Ok(cat.options[id]) else Err(OptionNotFound(id))
  }

  /** `_assert_option_attached`: 400 unless the option is mapped to the item. */
  function AssertOptionAttached(cat: Catalog, menuItemId: string, optionId: string): (r: Outcome)
    ensures r == Pass <==> (menuItemId, optionId) in cat.attached
    ensures r != Pass ==> r == Fail(OptionNotAllowed(menuItemId, optionId))
  {
    if (menuItemId, optionId) in cat.attached then Pass else Fail(OptionNotAllowed(menuItemId, optionId))
  }

  /** The `missing` list: requested keys without a catalog row, in request order. */
  function MissingKeys(cat: Catalog, optionId: string, keys: seq<string>): (m: seq<string>)
    ensures |m| <= |keys|
    ensures forall k :: k in m <==> k in keys && (optionId, k) !in cat.values
  {
    if keys == [] then []
    else
      var init := keys[..|keys| - 1];
      var k := keys[|keys| - 1];
      assert forall x :: x in keys <==> x in init || x == k;
      if (optionId, k) in cat.values then MissingKeys(cat, optionId, init) else MissingKeys(cat, optionId, init) + [k]
  }

  /** The missing list of a concatenation is the two lists in order, so with
      `MissingKeysOne` every missing key is reported in request order, a
      repeated one each time it is requested. */
  lemma {:induction false} MissingKeysAppend(cat: Catalog, optionId: string, a: seq<string>, b: seq<string>)
    ensures MissingKeys(cat, optionId, a + b) == MissingKeys(cat, optionId, a) + MissingKeys(cat, optionId, b)
    decreases |b|
  {
    if b == [] {
      assert a + b == a;
    } else {
      var init := b[..|b| - 1];
      assert (a + b)[..|a + b| - 1] == a + init;
      MissingKeysAppend(cat, optionId, a, init);
    }
  }

  lemma {:induction false} MissingKeysOne(cat: Catalog, optionId: string, k: string)
    ensures MissingKeys(cat, optionId, [k]) == if (optionId, k) in cat.values then [] else [k]
  {
    assert [k][..0] == [];
  }

  /** The first requested key whose catalog row is inactive. */
  function FirstInactive(cat: Catalog, optionId: string, keys: seq<string>): (r: Option<string>)
    ensures r.None? <==> forall k :: k in keys && (optionId, k) in cat.values ==> cat.values[(optionId, k)].isActive
    ensures r.Some? ==> r.value in keys && (optionId, r.value) in cat.values && !cat.values[(optionId, r.value)].isActive
  {
    if keys == [] then None
    else if (optionId, keys[0]) in cat.values && !cat.values[(optionId, keys[0])].isActive then Some(keys[0])
    else
      assert forall x :: x in keys <==> x == keys[0] || x in keys[1..];
      FirstInactive(cat, optionId, keys[1..])
  }

  /** `[by_key[k] for k in value_keys]`. */
  function Resolve(cat: Catalog, optionId: string, keys: seq<string>): (r: seq<(string, OptionValue)>)
    requires forall k :: k in keys ==> (optionId, k) in cat.values
    ensures |r| == |keys|
    ensures forall i :: 0 <= i < |keys| ==> r[i] == (keys[i], cat.values[(optionId, keys[i])])
  {
    seq(|keys|, i requires 0 <= i < |keys| => (keys[i], cat.values[(optionId, keys[i])]))
  }

  /** `_fetch_option_values`: every unmatched key is reported (400) before any
      inactive value is (400); on success one value per requested key, in
      request order, so a repeated key appears twice. */
  function FetchOptionValues(cat: Catalog, optionId: string, keys: seq<string>): (r: Result<seq<(string, OptionValue)>>)
    ensures r.Ok? <==> forall k :: k in keys ==> (optionId, k) in cat.values && cat.values[(optionId, k)].isActive
    ensures r.Ok? ==> (|r.value| == |keys| &&
      forall i :: 0 <= i < |keys| ==> r.value[i] == (keys[i], cat.values[(optionId, keys[i])]))
    ensures (exists k :: k in keys && (optionId, k) !in cat.values) ==>
      r.Err? && r.error.InvalidOptionValues? && r.error.missing == MissingKeys(cat, optionId, keys) &&
      forall k :: k in r.error.missing <==> k in keys && (optionId, k) !in cat.values
    ensures r.Err? && (forall k :: k in keys ==> (optionId, k) in cat.values) ==>
      r.error.OptionValueInactive? && r.error.valueKey in keys && !cat.values[(optionId, r.error.valueKey)].isActive
  {
    if keys == [] then Ok([])
    else
      var missing := MissingKeys(cat, optionId, keys);
      if missing != [] then
        assert missing[0] in missing;
        Err(InvalidOptionValues(missing))
      else
        assert forall k :: k in keys ==> (optionId, k) in cat.values;
        match FirstInactive(cat, optionId, keys)
        case Some(k) => Err(OptionValueInactive(k))
        case None => Ok(Resolve(cat, optionId, keys))
  }

  /** The snapshot rows `create_order` builds from the resolved values of one option. */
  function Snapshots(meta: OptionMeta, vals: seq<(string, OptionValue)>): (r: seq<OptionSnapshot>)
    ensures |r| == |vals|
    ensures forall i :: 0 <= i < |vals| ==>
      r[i] == OptionSnapshot(meta.key, meta.name, vals[i].0, vals[i].1.valueLabel, vals[i].1.priceDelta)
  {
    if vals == [] then []
    else
      var v := vals[|vals| - 1];
      Snapshots(meta, vals[..|vals| - 1]) + [OptionSnapshot(meta.key, meta.name, v.0, v.1.valueLabel, v.1.priceDelta)]
  }

  function DeltaSum(rows: seq<OptionSnapshot>): int
  {
    if rows == [] then 0 else DeltaSum(rows[..|rows| - 1]) + rows[|rows| - 1].priceDelta
  }

  /** One selected option of a line: option lookup (404), attachment (400),
      arity (400), then the values; on success one snapshot per requested
      key, in request order. */
  function PriceSelection(cat: Catalog, menuItemId: string, so: SelectedOption): (r: Result<seq<OptionSnapshot>>)
    ensures r.Ok? <==> ValidSelection(cat, menuItemId, so)
    ensures r.Ok? ==> (|r.value| == |so.valueKeys| &&
      forall i :: 0 <= i < |so.valueKeys| ==> r.value[i] == SnapshotOf(cat, so.optionId, so.valueKeys[i]))
    ensures so.optionId !in cat.options ==> r == Err(OptionNotFound(so.optionId))
    ensures so.optionId in cat.options && (menuItemId, so.optionId) !in cat.attached ==>
      r == Err(OptionNotAllowed(menuItemId, so.optionId))
    ensures (so.optionId in cat.options && (menuItemId, so.optionId) in cat.attached &&
             !ArityOk(cat.options[so.optionId].selectionType, |so.valueKeys|)) ==>
      r == Err(if cat.options[so.optionId].selectionType.Single? then SingleSelect(cat.options[so.optionId].key)
               else MultiSelect(cat.options[so.optionId].key))
  {
    match FetchOptionMeta(cat, so.optionId)
    case Err(e) => Err(e)
    case Ok(meta) =>
      match AssertOptionAttached(cat, menuItemId, so.optionId)
      case Fail(e) => Err(e)
      case Pass =>
        if meta.selectionType == Single && |so.valueKeys| != 1 then Err(SingleSelect(meta.key))
        else if meta.selectionType == Multi && |so.valueKeys| < 1 then Err(MultiSelect(meta.key))
        else
          match FetchOptionValues(cat, so.optionId, so.valueKeys)
          case Err(e) => Err(e)
          case Ok(vals) => Ok(Snapshots(meta, vals))
  }

  /** All selected options of a line, in order; the first failing one decides the error. */
  function PriceSelections(cat: Catalog, menuItemId: string, sels: seq<SelectedOption>): Result<seq<OptionSnapshot>>
  {
    if sels == [] then Ok([])
    else
      match PriceSelections(cat, menuItemId, sels[..|sels| - 1])
      case Err(e) => Err(e)
      case Ok(prefix) =>
        match PriceSelection(cat, menuItemId, sels[|sels| - 1])
        case Err(e) => Err(e)
        case Ok(rows) => Ok(prefix + rows)
  }

  /** One line: the menu item is checked before its options; the line amount
      is (catalog price + option deltas) × qty and the price snapshot is the
      catalog price without deltas. */
  function PriceLine(cat: Catalog, item: CartItem): Result<PricedLine>
  {
    match FetchMenuItem(cat, item.menuItemId)
    case Err(e) => Err(e)
    case Ok(mi) =>
      match PriceSelections(cat, item.menuItemId, item.selectedOptions)
      case Err(e) => Err(e)
      case Ok(rows) =>
        Ok(PricedLine(item.menuItemId, mi.name, mi.price, item.qty, (mi.price + DeltaSum(rows)) * item.qty, rows))
  }

  function PriceLines(cat: Catalog, items: seq<CartItem>): Result<seq<PricedLine>>
  {
    if items == [] then Ok([])
    else
      match PriceLines(cat, items[..|items| - 1])
      case Err(e) => Err(e)
      case Ok(prefix) =>
        match PriceLine(cat, items[|items| - 1])
        case Err(e) => Err(e)
        case Ok(line) => Ok(prefix + [line])
  }

  function LinesTotal(lines: seq<PricedLine>): int
  {
    if lines == [] then 0 else LinesTotal(lines[..|lines| - 1]) + lines[|lines| - 1].lineAmount
  }

  predicate QtyPositive(items: seq<CartItem>)
  {
    forall i :: 0 <= i < |items| ==> items[i].qty > 0
  }

  /** The pricing of `create_order`: the request schema rejects a
      non-positive quantity (422), an empty cart is rejected (400), then the
      lines are priced in order. */
  function PriceCart(cat: Catalog, cart: Cart): Result<PricedOrder>
  {
    if !QtyPositive(cart.items) then Err(RequestInvalid)
    else if cart.items == [] then Err(ItemsRequired)
    else
      match PriceLines(cat, cart.items)
      case Err(e) => Err(e)
      case Ok(lines) => Ok(PricedOrder(lines, LinesTotal(lines)))
  }

  // ---- lemmas about the pricing pipeline ----

  lemma {:induction false} DeltaSumAppend(a: seq<OptionSnapshot>, b: seq<OptionSnapshot>)
    ensures DeltaSum(a + b) == DeltaSum(a) + DeltaSum(b)
  {
    if b != [] {
      assert (a + b)[..|a + b| - 1] == a + b[..|b| - 1];
      DeltaSumAppend(a, b[..|b| - 1]);
    } else {
      assert a + b == a;
    }
  }

  /** Snapshot rows whose deltas are those of the requested keys sum to the keys' delta. */
  lemma {:induction false} DeltaSumOfKeys(cat: Catalog, optionId: string, keys: seq<string>, rows: seq<OptionSnapshot>)
    requires |rows| == |keys|
    requires forall i :: 0 <= i < |keys| ==>
      (optionId, keys[i]) in cat.values && rows[i].priceDelta == cat.values[(optionId, keys[i])].priceDelta
    ensures DeltaSum(rows) == KeysDelta(cat, optionId, keys)
  {
    if keys != [] {
      DeltaSumOfKeys(cat, optionId, keys[..|keys| - 1], rows[..|rows| - 1]);
    }
  }

  lemma {:induction false} KeySnapshotsAt(cat: Catalog, optionId: string, keys: seq<string>, i: nat)
    requires i < |keys| && optionId in cat.options && (optionId, keys[i]) in cat.values
    ensures KeySnapshots(cat, optionId, keys)[i] == SnapshotOf(cat, optionId, keys[i])
    decreases |keys|
  {
    var init := keys[..|keys| - 1];
    if i < |init| {
      assert init[i] == keys[i];
      KeySnapshotsAt(cat, optionId, init, i);
    }
  }

  /** A priced selection is exactly the option rows of its requested keys. */
  lemma {:induction false} SelectionSnapshots(cat: Catalog, menuItemId: string, so: SelectedOption)
    requires PriceSelection(cat, menuItemId, so).Ok?
    ensures PriceSelection(cat, menuItemId, so).value == KeySnapshots(cat, so.optionId, so.valueKeys)
  {
    var rows := PriceSelection(cat, menuItemId, so).value;
    var keys := so.valueKeys;
    if keys != [] {
      forall i | 0 <= i < |keys|
        ensures rows[i] == KeySnapshots(cat, so.optionId, keys)[i]
      {
        assert keys[i] in keys;
        KeySnapshotsAt(cat, so.optionId, keys, i);
      }
    }
  }

  /** Priced options of a line succeed exactly when every selection is valid;
      they then hold one row per requested key and their deltas sum to the
      catalog deltas of the requested keys. */
  lemma {:induction false} PriceSelectionsSpec(cat: Catalog, menuItemId: string, sels: seq<SelectedOption>)
    ensures PriceSelections(cat, menuItemId, sels).Ok? <==>
      forall j :: 0 <= j < |sels| ==> ValidSelection(cat, menuItemId, sels[j])
    ensures PriceSelections(cat, menuItemId, sels).Ok? ==>
      && PriceSelections(cat, menuItemId, sels).value == RequestedSnapshots(cat, sels)
      && |PriceSelections(cat, menuItemId, sels).value| == RequestedCount(sels)
      && DeltaSum(PriceSelections(cat, menuItemId, sels).value) == RequestedDelta(cat, sels)
  {
    if sels != [] {
      var init := sels[..|sels| - 1];
      var last := sels[|sels| - 1];
      PriceSelectionsSpec(cat, menuItemId, init);
      assert forall j :: 0 <= j < |init| ==> init[j] == sels[j];
      var r := PriceSelection(cat, menuItemId, last);
      if PriceSelections(cat, menuItemId, init).Ok? && r.Ok? {
        var prefix := PriceSelections(cat, menuItemId, init).value;
        DeltaSumAppend(prefix, r.value);
        DeltaSumOfKeys(cat, last.optionId, last.valueKeys, r.value);
        SelectionSnapshots(cat, menuItemId, last);
      }
    }
  }

  /** A priced line matches the catalog: name and unit price snapshots, the
      quantity, the option rows of the requested keys in request order, and
      the exact amount. */
  ghost predicate LineMatches(cat: Catalog, item: CartItem, line: PricedLine)
  {
    && item.menuItemId in cat.menuItems
    && line.menuItemId == item.menuItemId
    && line.nameSnapshot == cat.menuItems[item.menuItemId].name
    && line.priceSnapshot == cat.menuItems[item.menuItemId].price
    && line.qty == item.qty
    && line.options == RequestedSnapshots(cat, item.selectedOptions)
    && |line.options| == RequestedCount(item.selectedOptions)
    && DeltaSum(line.options) == RequestedDelta(cat, item.selectedOptions)
    && line.lineAmount == ExpectedLineAmount(cat, item)
  }

  lemma {:induction false} PriceLineSpec(cat: Catalog, item: CartItem)
    ensures PriceLine(cat, item).Ok? <==> ValidItem(cat, item)
    ensures PriceLine(cat, item).Ok? ==> LineMatches(cat, item, PriceLine(cat, item).value)
    ensures item.menuItemId !in cat.menuItems ==> PriceLine(cat, item) == Err(MenuItemNotFound(item.menuItemId))
    ensures item.menuItemId in cat.menuItems && !cat.menuItems[item.menuItemId].isActive ==>
      PriceLine(cat, item) == Err(MenuItemInactive(item.menuItemId))
  {
    PriceSelectionsSpec(cat, item.menuItemId, item.selectedOptions);
  }

  /** Pricing the lines succeeds exactly when every item is valid. */
  lemma {:induction false} PriceLinesOkIff(cat: Catalog, items: seq<CartItem>)
    ensures PriceLines(cat, items).Ok? <==> forall i :: 0 <= i < |items| ==> ValidItem(cat, items[i])
  {
    if items != [] {
      var init := items[..|items| - 1];
      PriceLinesOkIff(cat, init);
      PriceLineSpec(cat, items[|items| - 1]);
      assert forall i :: 0 <= i < |init| ==> init[i] == items[i];
    }
  }

  lemma {:induction false} PriceLinesLength(cat: Catalog, items: seq<CartItem>)
    requires PriceLines(cat, items).Ok?
    ensures |PriceLines(cat, items).value| == |items|
  {
    if items != [] { PriceLinesLength(cat, items[..|items| - 1]); }
  }

  /** Line `i` of the priced lines is the pricing of item `i`. */
  lemma {:induction false} PriceLinesAt(cat: Catalog, items: seq<CartItem>, i: nat)
    requires PriceLines(cat, items).Ok? && i < |items|
    ensures |PriceLines(cat, items).value| == |items|
    ensures PriceLine(cat, items[i]) == Ok(PriceLines(cat, items).value[i])
  {
    var n := |items| - 1;
    var init := items[..n];
    var prefix := PriceLines(cat, init).value;
    assert PriceLines(cat, items).value == prefix + [PriceLine(cat, items[n]).value];
    if n > 0 {
      PriceLinesAt(cat, init, if i < n then i else 0);
      if i < n { assert items[i] == init[i]; }
    }
  }

  /** The lines are priced one per cart item, in order, each matching the
      catalog, and they add up to the expected total. */
  lemma {:induction false} PriceLinesShape(cat: Catalog, items: seq<CartItem>)
    requires PriceLines(cat, items).Ok?
    ensures |PriceLines(cat, items).value| == |items|
    ensures forall i :: 0 <= i < |items| ==> LineMatches(cat, items[i], PriceLines(cat, items).value[i])
    ensures LinesTotal(PriceLines(cat, items).value) == ExpectedTotal(cat, items)
  {
    if items != [] {
      var n := |items| - 1;
      var init := items[..n];
      var lines := PriceLines(cat, items).value;
      var prefix := PriceLines(cat, init).value;
      assert lines == prefix + [PriceLine(cat, items[n]).value];
      PriceLinesShape(cat, init);
      PriceLineSpec(cat, items[n]);
      assert lines[..n] == prefix;
      forall i | 0 <= i < |items| ensures LineMatches(cat, items[i], lines[i]) {
        PriceLinesAt(cat, items, i);
        PriceLineSpec(cat, items[i]);
      }
    }
  }

  /** The error of a failed pricing is the error of the first failing line. */
  lemma {:induction false} PriceLinesFirstError(cat: Catalog, items: seq<CartItem>)
    requires PriceLines(cat, items).Err?
    ensures exists k :: (0 <= k < |items| &&
      (forall j :: 0 <= j < k ==> PriceLine(cat, items[j]).Ok?) &&
      PriceLine(cat, items[k]) == Err(PriceLines(cat, items).error))
  {
    var init := items[..|items| - 1];
    assert forall i :: 0 <= i < |init| ==> init[i] == items[i];
    if PriceLines(cat, init).Err? {
      PriceLinesFirstError(cat, init);
      var k :| 0 <= k < |init| &&
        (forall j :: 0 <= j < k ==> PriceLine(cat, init[j]).Ok?) &&
        PriceLine(cat, init[k]) == Err(PriceLines(cat, init).error);
      assert items[k] == init[k];
    } else {
      PriceLinesOkIff(cat, init);
      var k := |items| - 1;
      forall j | 0 <= j < k ensures PriceLine(cat, items[j]).Ok? {
        PriceLineSpec(cat, items[j]);
        assert items[j] == init[j];
      }
    }
  }

  /** Once a prefix of the selections fails, the whole list fails with that error. */
  lemma {:induction false} PriceSelectionsErrPrefix(cat: Catalog, menuItemId: string, sels: seq<SelectedOption>, n: nat)
    requires n <= |sels| && PriceSelections(cat, menuItemId, sels[..n]).Err?
    ensures PriceSelections(cat, menuItemId, sels) == PriceSelections(cat, menuItemId, sels[..n])
    decreases |sels|
  {
    if n < |sels| {
      var init := sels[..|sels| - 1];
      assert init[..n] == sels[..n];
      PriceSelectionsErrPrefix(cat, menuItemId, init, n);
    } else {
      assert sels[..n] == sels;
    }
  }

  /** Once a prefix of the items fails, the whole cart fails with that error. */
  lemma {:induction false} PriceLinesErrPrefix(cat: Catalog, items: seq<CartItem>, n: nat)
    requires n <= |items| && PriceLines(cat, items[..n]).Err?
    ensures PriceLines(cat, items) == PriceLines(cat, items[..n])
    decreases |items|
  {
    if n < |items| {
      var init := items[..|items| - 1];
      assert init[..n] == items[..n];
      PriceLinesErrPrefix(cat, init, n);
    } else {
      assert items[..n] == items;
    }
  }

  /** A selection failing after a priced prefix decides the error of the line's options. */
  lemma {:induction false} SelectionFails(cat: Catalog, menuItemId: string, sels: seq<SelectedOption>, j: nat,
                       rows: seq<OptionSnapshot>, e: Error)
    requires j < |sels| && PriceSelections(cat, menuItemId, sels[..j]) == Ok(rows)
    requires PriceSelection(cat, menuItemId, sels[j]) == Err(e)
    ensures PriceSelections(cat, menuItemId, sels) == Err(e)
  {
    assert sels[..j + 1][..j] == sels[..j];
    PriceSelectionsErrPrefix(cat, menuItemId, sels, j + 1);
  }

  /** An item failing after a priced prefix decides the error of the cart. */
  lemma {:induction false} LineFails(cat: Catalog, items: seq<CartItem>, i: nat, lines: seq<PricedLine>, e: Error)
    requires i < |items| && PriceLines(cat, items[..i]) == Ok(lines)
    requires PriceLine(cat, items[i]) == Err(e)
    ensures PriceLines(cat, items) == Err(e)
  {
    assert items[..i + 1][..i] == items[..i];
    PriceLinesErrPrefix(cat, items, i + 1);
  }

  /** A line whose menu item and options are priced is priced from them. */
  lemma {:induction false} LinePriced(cat: Catalog, item: CartItem, mi: MenuItem, rows: seq<OptionSnapshot>, deltaSum: int)
    requires FetchMenuItem(cat, item.menuItemId) == Ok(mi)
    requires PriceSelections(cat, item.menuItemId, item.selectedOptions) == Ok(rows)
    requires deltaSum == DeltaSum(rows)
    ensures PriceLine(cat, item) ==
      Ok(PricedLine(item.menuItemId, mi.name, mi.price, item.qty, (mi.price + deltaSum) * item.qty, rows))
  {
    var amount := (mi.price + DeltaSum(rows)) * item.qty;
    assert PriceLine(cat, item) == Ok(PricedLine(item.menuItemId, mi.name, mi.price, item.qty, amount, rows));
  }

  /** A line whose menu item is refused, or whose options fail, fails with that error. */
  lemma {:induction false} LineRefused(cat: Catalog, item: CartItem)
    requires FetchMenuItem(cat, item.menuItemId).Err? ||
             PriceSelections(cat, item.menuItemId, item.selectedOptions).Err?
    ensures PriceLine(cat, item) ==
      Err(if FetchMenuItem(cat, item.menuItemId).Err? then FetchMenuItem(cat, item.menuItemId).error
          else PriceSelections(cat, item.menuItemId, item.selectedOptions).error)
  {
  }

  /** A non-empty cart of positive quantities is priced by its lines. */
  lemma {:induction false} PriceCartByLines(cat: Catalog, cart: Cart)
    requires QtyPositive(cart.items) && cart.items != []
    ensures PriceLines(cat, cart.items).Err? ==> PriceCart(cat, cart) == Err(PriceLines(cat, cart.items).error)
    ensures PriceLines(cat, cart.items).Ok? ==>
      PriceCart(cat, cart) == Ok(PricedOrder(PriceLines(cat, cart.items).value, LinesTotal(PriceLines(cat, cart.items).value)))
  {
  }

  /** One more priced item extends the priced prefix. */
  lemma {:induction false} LineAdded(cat: Catalog, items: seq<CartItem>, i: nat, lines: seq<PricedLine>, line: PricedLine)
    requires i < |items| && PriceLines(cat, items[..i]) == Ok(lines)
    requires PriceLine(cat, items[i]) == Ok(line)
    ensures PriceLines(cat, items[..i + 1]) == Ok(lines + [line])
  {
    assert items[..i + 1][..i] == items[..i];
  }

  lemma {:induction false} ItemRowAdded(lines: seq<PricedLine>, line: PricedLine, orderId: nat)
    ensures ItemRowsFor(orderId, lines + [line]) == ItemRowsFor(orderId, lines) +
      [ItemRow(orderId, line.menuItemId, line.nameSnapshot, line.priceSnapshot, line.qty, line.lineAmount)]
  {
    assert (lines + [line])[..|lines|] == lines;
  }

  lemma {:induction false} OptionRowsAdded(lines: seq<PricedLine>, line: PricedLine, base: nat)
    ensures OptionRowsFor(base, lines + [line]) == OptionRowsFor(base, lines) + TagOptions(base + |lines|, line.options)
  {
    assert (lines + [line])[..|lines|] == lines;
  }

  lemma {:induction false} LinesTotalAdded(lines: seq<PricedLine>, line: PricedLine)
    ensures LinesTotal(lines + [line]) == LinesTotal(lines) + line.lineAmount
  {
    assert (lines + [line])[..|lines|] == lines;
  }

  /** `create_order` prices a cart exactly when it is valid; the priced order
      has one line per item matching the catalog and its total is the sum of
      (price + deltas) × qty over the items. An empty cart is refused with 400. */
  lemma {:induction false} PriceCartSpec(cat: Catalog, cart: Cart)
    ensures PriceCart(cat, cart).Ok? <==> ValidCart(cat, cart)
    ensures PriceCart(cat, cart).Ok? ==>
      && |PriceCart(cat, cart).value.lines| == |cart.items|
      && (forall i :: 0 <= i < |cart.items| ==> LineMatches(cat, cart.items[i], PriceCart(cat, cart).value.lines[i]))
      && PriceCart(cat, cart).value.totalAmount == ExpectedTotal(cat, cart.items)
    ensures cart.items == [] ==> PriceCart(cat, cart) == Err(ItemsRequired)
  {
    PriceLinesOkIff(cat, cart.items);
    if PriceCart(cat, cart).Ok? {
      PriceLinesShape(cat, cart.items);
    }
  }

  /** Each line's amount is its unit price plus its option deltas, times
      its quantity: the form the stored rows keep. */
  ghost predicate AmountsAgree(lines: seq<PricedLine>)
  {
    forall l :: l in lines ==> l.lineAmount == (l.priceSnapshot + DeltaSum(l.options)) * l.qty
  }

  /** Every priced line's amount is its unit price plus its option deltas,
      times its quantity. */
  lemma {:induction false} PricedLinesConsistent(cat: Catalog, items: seq<CartItem>)
    requires PriceLines(cat, items).Ok?
    ensures AmountsAgree(PriceLines(cat, items).value)
  {
    var lines := PriceLines(cat, items).value;
    forall l | l in lines ensures l.lineAmount == (l.priceSnapshot + DeltaSum(l.options)) * l.qty {
      var i :| 0 <= i < |lines| && lines[i] == l;
      PriceLinesLength(cat, items);
      PriceLinesAt(cat, items, i);
    }
  }

  /** Two large pizzas with a +2000 size option cost (10000 + 2000) × 2 = 24000. */
  lemma {:induction false} PizzaExample()
    ensures
      var cat := Catalog(
        map["PIZZA" := MenuItem("Pizza", 10000, true)],
        map["SIZE" := OptionMeta("size", "Size", Single, true)],
        {("PIZZA", "SIZE")},
        map[("SIZE", "LARGE") := OptionValue("Large", 2000, true)]);
      var cart := Cart(None, None, [CartItem("PIZZA", 2, [SelectedOption("SIZE", ["LARGE"])])]);
      PriceCart(cat, cart).Ok? && PriceCart(cat, cart).value.totalAmount == 24000
  {
    var cat := Catalog(
      map["PIZZA" := MenuItem("Pizza", 10000, true)],
      map["SIZE" := OptionMeta("size", "Size", Single, true)],
      {("PIZZA", "SIZE")},
      map[("SIZE", "LARGE") := OptionValue("Large", 2000, true)]);
    var cart := Cart(None, None, [CartItem("PIZZA", 2, [SelectedOption("SIZE", ["LARGE"])])]);
    PriceCartSpec(cat, cart);
    assert ValidSelection(cat, "PIZZA", SelectedOption("SIZE", ["LARGE"]));
    var sels := [SelectedOption("SIZE", ["LARGE"])];
    assert sels[..0] == [];
    assert ["LARGE"][..0] == [];
    assert RequestedDelta(cat, sels) == 2000;
    assert [CartItem("PIZZA", 2, sels)][..0] == [];
  }

  // ---- the rows create_order inserts ----

  function ItemRowsFor(orderId: nat, lines: seq<PricedLine>): (r: seq<ItemRow>)
    ensures |r| == |lines|
    ensures forall i :: 0 <= i < |lines| ==>
      r[i] == ItemRow(orderId, lines[i].menuItemId, lines[i].nameSnapshot, lines[i].priceSnapshot, lines[i].qty, lines[i].lineAmount)
  {
    if lines == [] then []
    else
      var l := lines[|lines| - 1];
      ItemRowsFor(orderId, lines[..|lines| - 1]) + [ItemRow(orderId, l.menuItemId, l.nameSnapshot, l.priceSnapshot, l.qty, l.lineAmount)]
  }

  function TagOptions(itemId: nat, snaps: seq<OptionSnapshot>): (r: seq<ItemOptionRow>)
    ensures |r| == |snaps|
    ensures forall j :: 0 <= j < |snaps| ==>
      r[j] == ItemOptionRow(itemId, snaps[j].optionKey, snaps[j].optionName, snaps[j].valueKey, snaps[j].valueLabel, snaps[j].priceDelta)
  {
    if snaps == [] then []
    else
      var s := snaps[|snaps| - 1];
      TagOptions(itemId, snaps[..|snaps| - 1]) + [ItemOptionRow(itemId, s.optionKey, s.optionName, s.valueKey, s.valueLabel, s.priceDelta)]
  }

  /** Option rows of all lines, line `i` getting item id `base + i`. */
  function OptionRowsFor(base: nat, lines: seq<PricedLine>): seq<ItemOptionRow>
  {
    if lines == [] then []
    else OptionRowsFor(base, lines[..|lines| - 1]) + TagOptions(base + |lines| - 1, lines[|lines| - 1].options)
  }

  lemma {:induction false} ItemRowsTotal(orderId: nat, lines: seq<PricedLine>, o: nat)
    ensures ItemsTotal(ItemRowsFor(orderId, lines), o) == if o == orderId then LinesTotal(lines) else 0
  {
    if lines != [] {
      var r := ItemRowsFor(orderId, lines);
      assert r[..|r| - 1] == ItemRowsFor(orderId, lines[..|lines| - 1]);
      ItemRowsTotal(orderId, lines[..|lines| - 1], o);
    }
  }

  lemma {:induction false} TagOptionsDelta(itemId: nat, snaps: seq<OptionSnapshot>, k: nat)
    ensures OptionsDelta(TagOptions(itemId, snaps), k) == if k == itemId then DeltaSum(snaps) else 0
  {
    if snaps != [] {
      var r := TagOptions(itemId, snaps);
      assert r[..|r| - 1] == TagOptions(itemId, snaps[..|snaps| - 1]);
      TagOptionsDelta(itemId, snaps[..|snaps| - 1], k);
    }
  }

  lemma {:induction false} OptionRowsSpec(base: nat, lines: seq<PricedLine>)
    ensures forall j :: 0 <= j < |OptionRowsFor(base, lines)| ==> base <= OptionRowsFor(base, lines)[j].orderItemId < base + |lines|
    ensures forall k: nat :: k < base || k >= base + |lines| ==> OptionsDelta(OptionRowsFor(base, lines), k) == 0
    ensures forall i :: 0 <= i < |lines| ==> OptionsDelta(OptionRowsFor(base, lines), base + i) == DeltaSum(lines[i].options)
  {
    if lines != [] {
      var init := lines[..|lines| - 1];
      var n := |lines| - 1;
      var tagged := TagOptions(base + n, lines[n].options);
      OptionRowsSpec(base, init);
      var r := OptionRowsFor(base, lines);
      assert r == OptionRowsFor(base, init) + tagged;
      forall k ensures OptionsDelta(r, k) == OptionsDelta(OptionRowsFor(base, init), k) + (if k == base + n then DeltaSum(lines[n].options) else 0) {
        OptionsDeltaAppend(OptionRowsFor(base, init), tagged, k);
        TagOptionsDelta(base + n, lines[n].options, k);
      }
      forall i | 0 <= i < |lines| ensures OptionsDelta(r, base + i) == DeltaSum(lines[i].options) {
        if i < n { assert init[i] == lines[i]; }
      }
    }
  }

  /** Order `o`'s total over the extended tables. */
  lemma {:induction false} CreateKeepsTotal(orders: seq<OrderRow>, items: seq<ItemRow>, lines: seq<PricedLine>, row: OrderRow, o: nat)
    requires forall k :: 0 <= k < |items| ==> items[k].orderId < |orders|
    requires forall o :: 0 <= o < |orders| ==> orders[o].totalAmount == ItemsTotal(items, o)
    requires row.totalAmount == LinesTotal(lines)
    requires o < |orders| + 1
    ensures (orders + [row])[o].totalAmount == ItemsTotal(items + ItemRowsFor(|orders|, lines), o)
  {
    ItemsTotalAppend(items, ItemRowsFor(|orders|, lines), o);
    ItemRowsTotal(|orders|, lines, o);
    if o == |orders| { ItemsTotalUnrelated(items, o); }
  }

  /** The new order's total is the sum of its inserted lines; other totals are unchanged. */
  lemma {:induction false} CreateKeepsTotals(orders: seq<OrderRow>, items: seq<ItemRow>, lines: seq<PricedLine>, row: OrderRow)
    requires forall k :: 0 <= k < |items| ==> items[k].orderId < |orders|
    requires forall o :: 0 <= o < |orders| ==> orders[o].totalAmount == ItemsTotal(items, o)
    requires row.totalAmount == LinesTotal(lines)
    ensures forall o :: 0 <= o < |orders| + 1 ==>
      (orders + [row])[o].totalAmount == ItemsTotal(items + ItemRowsFor(|orders|, lines), o)
  {
    forall o: nat | o < |orders| + 1
      ensures (orders + [row])[o].totalAmount == ItemsTotal(items + ItemRowsFor(|orders|, lines), o)
    {
      CreateKeepsTotal(orders, items, lines, row, o);
    }
  }

  /** An inserted line row copies its priced line. */
  lemma {:induction false} NewItemRow(items: seq<ItemRow>, orderId: nat, lines: seq<PricedLine>, k: nat)
    requires |items| <= k < |items| + |lines|
    ensures (items + ItemRowsFor(orderId, lines))[k].lineAmount == lines[k - |items|].lineAmount
    ensures (items + ItemRowsFor(orderId, lines))[k].priceSnapshot == lines[k - |items|].priceSnapshot
    ensures (items + ItemRowsFor(orderId, lines))[k].qty == lines[k - |items|].qty
  {
  }

  /** An inserted line's option rows add up to its priced options. */
  lemma {:induction false} NewItemDelta(items: seq<ItemRow>, opts: seq<ItemOptionRow>, lines: seq<PricedLine>, k: nat)
    requires forall j :: 0 <= j < |opts| ==> opts[j].orderItemId < |items|
    requires |items| <= k < |items| + |lines|
    ensures OptionsDelta(opts + OptionRowsFor(|items|, lines), k) == DeltaSum(lines[k - |items|].options)
  {
    OptionRowsSpec(|items|, lines);
    OptionsDeltaAppend(opts, OptionRowsFor(|items|, lines), k);
    OptionsDeltaUnrelated(opts, k);
  }

  /** An existing line gains no option rows. */
  lemma {:induction false} OldItemDelta(items: seq<ItemRow>, opts: seq<ItemOptionRow>, lines: seq<PricedLine>, k: nat)
    requires k < |items|
    ensures OptionsDelta(opts + OptionRowsFor(|items|, lines), k) == OptionsDelta(opts, k)
  {
    OptionRowsSpec(|items|, lines);
    OptionsDeltaAppend(opts, OptionRowsFor(|items|, lines), k);
  }

  /** Line `k` of the extended item table agrees with its option rows. */
  lemma {:induction false} CreateKeepsLine(items: seq<ItemRow>, opts: seq<ItemOptionRow>, orderId: nat, lines: seq<PricedLine>, k: nat)
    requires forall j :: 0 <= j < |opts| ==> opts[j].orderItemId < |items|
    requires forall k :: 0 <= k < |items| ==>
      items[k].lineAmount == (items[k].priceSnapshot + OptionsDelta(opts, k)) * items[k].qty
    requires AmountsAgree(lines)
    requires k < |items| + |lines|
    ensures (items + ItemRowsFor(orderId, lines))[k].lineAmount ==
      ((items + ItemRowsFor(orderId, lines))[k].priceSnapshot + OptionsDelta(opts + OptionRowsFor(|items|, lines), k))
        * (items + ItemRowsFor(orderId, lines))[k].qty
  {
    if k >= |items| {
      NewItemRow(items, orderId, lines, k);
      NewItemDelta(items, opts, lines, k);
      assert lines[k - |items|] in lines;
    } else {
      OldItemDelta(items, opts, lines, k);
    }
  }

  /** Each inserted line's amount agrees with its inserted option rows; old lines are unchanged. */
  lemma {:induction false} CreateKeepsLines(items: seq<ItemRow>, opts: seq<ItemOptionRow>, orderId: nat, lines: seq<PricedLine>)
    requires forall j :: 0 <= j < |opts| ==> opts[j].orderItemId < |items|
    requires forall k :: 0 <= k < |items| ==>
      items[k].lineAmount == (items[k].priceSnapshot + OptionsDelta(opts, k)) * items[k].qty
    requires AmountsAgree(lines)
    ensures forall k: nat :: k < |items| + |lines| ==>
      (items + ItemRowsFor(orderId, lines))[k].lineAmount ==
      ((items + ItemRowsFor(orderId, lines))[k].priceSnapshot + OptionsDelta(opts + OptionRowsFor(|items|, lines), k))
        * (items + ItemRowsFor(orderId, lines))[k].qty
  {
    forall k: nat | k < |items| + |lines|
      ensures (items + ItemRowsFor(orderId, lines))[k].lineAmount ==
        ((items + ItemRowsFor(orderId, lines))[k].priceSnapshot + OptionsDelta(opts + OptionRowsFor(|items|, lines), k))
          * (items + ItemRowsFor(orderId, lines))[k].qty
    {
      CreateKeepsLine(items, opts, orderId, lines, k);
    }
  }

  /** Inserted lines point at the new order and inserted option rows at the inserted lines. */
  lemma {:induction false} CreateKeepsKeys(orders: seq<OrderRow>, items: seq<ItemRow>, opts: seq<ItemOptionRow>,
                        lines: seq<PricedLine>, row: OrderRow)
    requires forall k :: 0 <= k < |items| ==> items[k].orderId < |orders|
    requires forall j :: 0 <= j < |opts| ==> opts[j].orderItemId < |items|
    ensures forall k :: 0 <= k < |items| + |lines| ==> (items + ItemRowsFor(|orders|, lines))[k].orderId < |orders| + 1
    ensures forall j :: 0 <= j < |opts + OptionRowsFor(|items|, lines)| ==>
      (opts + OptionRowsFor(|items|, lines))[j].orderItemId < |items| + |lines|
  {
    OptionRowsSpec(|items|, lines);
  }

  /** Inserting the lines and option rows of a priced order keeps totals and
      line amounts in agreement. */
  lemma {:induction false} CreateKeepsItems(orders: seq<OrderRow>, items: seq<ItemRow>, opts: seq<ItemOptionRow>,
                         lines: seq<PricedLine>, row: OrderRow,
                         orders': seq<OrderRow>, items': seq<ItemRow>, opts': seq<ItemOptionRow>)
    requires ItemsValid(orders, items, opts)
    requires AmountsAgree(lines)
    requires row.totalAmount == LinesTotal(lines)
    requires orders' == orders + [row]
    requires items' == items + ItemRowsFor(|orders|, lines)
    requires opts' == opts + OptionRowsFor(|items|, lines)
    ensures ItemsValid(orders', items', opts')
  {
    CreateKeepsLines(items, opts, |orders|, lines);
    CreateKeepsTotals(orders, items, lines, row);
    CreateKeepsKeys(orders, items, opts, lines, row);
  }

  /** The first log entry of the new order makes PLACED its last logged status. */
  lemma {:induction false} CreateKeepsLogs(orders: seq<OrderRow>, logs: seq<StatusLog>, row: OrderRow, log: StatusLog)
    requires LogsValid(orders, logs)
    requires row.status == Placed
    requires log == StatusLog(|orders|, None, Placed, row.customerId)
    ensures LogsValid(orders + [row], logs + [log])
  {
    forall o: nat | o < |orders| + 1 ensures LastLog(logs + [log], o) == Some((orders + [row])[o].status) {
      LastLogAppend(logs, log, o);
    }
  }

  /** A new order has no notification records yet. */
  lemma {:induction false} CreateKeepsNotes(orders: seq<OrderRow>, notes: seq<NotificationRow>, row: OrderRow)
    requires NotesValid(orders, notes)
    requires row.acceptedAt.None?
    ensures NotesValid(orders + [row], notes)
  {
    forall o: nat | o < |orders| + 1
      ensures NotesFor(notes, o) == if (orders + [row])[o].acceptedAt.Some? then 1 else 0
    {
      if o == |orders| { NotesForUnrelated(notes, o); }
    }
  }

  /** Inserting the header, lines, option rows and first log entry of a
      priced order keeps the tables consistent. */
  lemma {:induction false} CreatePreserves(orders: seq<OrderRow>, items: seq<ItemRow>, opts: seq<ItemOptionRow>,
                        logs: seq<StatusLog>, notes: seq<NotificationRow>,
                        lines: seq<PricedLine>, row: OrderRow, log: StatusLog,
                        orders': seq<OrderRow>, items': seq<ItemRow>, opts': seq<ItemOptionRow>, logs': seq<StatusLog>)
    requires Consistent(orders, items, opts, logs, notes)
    requires AmountsAgree(lines)
    requires row.orderNo == |orders| + 1 && row.status == Placed && StampsAgree(row)
    requires row.totalAmount == LinesTotal(lines)
    requires log == StatusLog(|orders|, None, Placed, row.customerId)
    requires orders' == orders + [row]
    requires items' == items + ItemRowsFor(|orders|, lines)
    requires opts' == opts + OptionRowsFor(|items|, lines)
    requires logs' == logs + [log]
    ensures Consistent(orders', items', opts', logs', notes)
  {
    CreateKeepsItems(orders, items, opts, lines, row, orders', items', opts');
    CreateKeepsLogs(orders, logs, row, log);
    CreateKeepsNotes(orders, notes, row);
    assert OrdersValid(orders');
  }

  lemma {:induction false} NotesForUnrelated(notes: seq<NotificationRow>, o: nat)
    requires forall k :: 0 <= k < |notes| ==> notes[k].orderId != o
    ensures NotesFor(notes, o) == 0
  {
    if notes != [] { NotesForUnrelated(notes[..|notes| - 1], o); }
  }

  // ---- cancel_order ----

  /** Guard of `cancel_order`: 404 for a missing order; 403 when a claimed
      customer is not the owner, whatever the status; otherwise 400 naming
      any status but PLACED. */
  function CancelCheck(orders: seq<OrderRow>, id: nat, customerId: Option<string>): (r: Outcome)
    ensures r == Pass <==>
      id < |orders| && orders[id].status == Placed && (!Truthy(customerId) || orders[id].customerId == customerId)
    ensures id >= |orders| ==> r == Fail(OrderNotFound)
    ensures id < |orders| && Truthy(customerId) && orders[id].customerId != customerId ==> r == Fail(NotYourOrder)
    ensures id < |orders| && (!Truthy(customerId) || orders[id].customerId == customerId) && orders[id].status != Placed ==>
      r == Fail(CannotCancel(orders[id].status))
  {
    if id >= |orders| then Fail(OrderNotFound)
    else if Truthy(customerId) && orders[id].customerId != customerId then Fail(NotYourOrder)
    else if orders[id].status != Placed then Fail(CannotCancel(orders[id].status))
    else Pass
  }

  // ---- reads ----

  /** `list_orders`: ids of the customer's orders (all orders when no
      customer is given), newest first, at most `limit`. */
  function ListOrders(orders: seq<OrderRow>, customerId: Option<string>, limit: int): (r: Result<seq<nat>>)
    ensures r.Err? <==> limit < 0
    ensures r.Err? ==> r.error == NegativeLimit
    ensures r.Ok? ==> |r.value| <= limit
    ensures r.Ok? ==> forall i :: 0 <= i < |r.value| ==>
      r.value[i] < |orders| && (Truthy(customerId) ==> orders[r.value[i]].customerId == customerId)
    ensures r.Ok? ==> forall i, j :: 0 <= i < j < |r.value| ==> r.value[i] > r.value[j]
    ensures r.Ok? ==> forall o :: 0 <= o < |orders| && (!Truthy(customerId) || orders[o].customerId == customerId) && o !in r.value ==>
      |r.value| == limit && forall i :: 0 <= i < |r.value| ==> r.value[i] > o
  {
    if limit < 0 then Err(NegativeLimit)
    else Ok(Listing.NewestMatching(orders, (o: OrderRow) => !Truthy(customerId) || o.customerId == customerId, limit, |orders|))
  }

  datatype OrderDetail = OrderDetail(order: OrderRow, itemIds: seq<nat>, optionIds: seq<nat>)

  /** `get_order`: the header, its lines and the option rows of those lines. */
  function GetOrder(orders: seq<OrderRow>, items: seq<ItemRow>, opts: seq<ItemOptionRow>, id: nat): (r: Result<OrderDetail>)
    ensures r.Err? <==> id >= |orders|
    ensures r.Err? ==> r.error == OrderNotFound
    ensures r.Ok? ==> r.value.order == orders[id]
    ensures r.Ok? ==> forall k: nat :: k in r.value.itemIds <==> k < |items| && items[k].orderId == id
    ensures r.Ok? ==> forall j: nat :: j in r.value.optionIds <==>
      j < |opts| && opts[j].orderItemId < |items| && items[opts[j].orderItemId].orderId == id
  {
    if id >= |orders| then Err(OrderNotFound)
    else
      var itemIds := Listing.Matching(items, (it: ItemRow) => it.orderId == id);
      var optionIds := Listing.Matching(opts, (op: ItemOptionRow) => op.orderItemId < |items| && items[op.orderItemId].orderId == id);
      Ok(OrderDetail(orders[id], itemIds, optionIds))
  }
}
