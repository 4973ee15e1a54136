/** The discovery catalogue: filtered, sorted listings of live entries and the search cursor that
    walks them. */
module Discovery {
  import opened Common
  import opened AsciiText
  import opened PaymentShape

  // ---- Order ----

  /** Python's order on strings: by code point, a prefix first. */
  predicate TextLeq(a: string, b: string) {
    a == "" || (b != "" && (a[0] < b[0] || (a[0] == b[0] && TextLeq(a[1..], b[1..]))))
  }

  /** The sort key: case-folded resource, case-folded type, and the extensions as JSON text. */
  datatype SortKey = SortKey(resource: string, kind: string, extensions: string)

  predicate KeyLeq(a: SortKey, b: SortKey) {
    if a.resource != b.resource then TextLeq(a.resource, b.resource)
    else if a.kind != b.kind then TextLeq(a.kind, b.kind)
    else TextLeq(a.extensions, b.extensions)
  }

  lemma {:induction false} TextLeqTotal(a: string, b: string)
    ensures TextLeq(a, b) || TextLeq(b, a)
    ensures TextLeq(a, b) && TextLeq(b, a) ==> a == b
  {
    if a != "" && b != "" && a[0] == b[0] {
      TextLeqTotal(a[1..], b[1..]);
      assert a == [a[0]] + a[1..] && b == [b[0]] + b[1..];
    }
  }

  lemma {:induction false} TextLeqTransitive(a: string, b: string, c: string)
    requires TextLeq(a, b) && TextLeq(b, c)
    ensures TextLeq(a, c)
  {
    if a != "" && a[0] == b[0] == c[0] { TextLeqTransitive(a[1..], b[1..], c[1..]); }
  }

  lemma KeyLeqTotal(a: SortKey, b: SortKey)
    ensures KeyLeq(a, b) || KeyLeq(b, a)
    ensures KeyLeq(a, b) && KeyLeq(b, a) ==> a == b
  {
    TextLeqTotal(a.resource, b.resource);
    TextLeqTotal(a.kind, b.kind);
    TextLeqTotal(a.extensions, b.extensions);
  }

  lemma KeyLeqTransitive(a: SortKey, b: SortKey, c: SortKey)
    requires KeyLeq(a, b) && KeyLeq(b, c)
    ensures KeyLeq(a, c)
  {
    TextLeqTotal(a.resource, b.resource);
    TextLeqTotal(a.kind, b.kind);
    if a.resource == b.resource == c.resource {
      if a.kind == b.kind == c.kind { TextLeqTransitive(a.extensions, b.extensions, c.extensions); }
      else if a.kind != b.kind && b.kind != c.kind { TextLeqTransitive(a.kind, b.kind, c.kind); }
    } else if a.resource != b.resource && b.resource != c.resource {
      TextLeqTransitive(a.resource, b.resource, c.resource);
    }
  }

  // ---- Items and filters ----

  /** One option of an entry's `accepts` list; a value that is no object matches nothing. */
  datatype Accept = Accept(payTo: Option<string>, scheme: Option<string>, network: Option<string>) | NotAnObject

  /** A stored entry.  `searchable` is the case-folded JSON text that queries look into; an entry
      whose extensions are no object has None. */
  datatype Item = Item(
    kind: Option<string>, accepts: seq<Accept>, extensions: Option<set<string>>, searchable: string, key: SortKey)

  /** The filters of a request.  The empty string asks for nothing, like an absent value; `needle`
      is the trimmed, case-folded query. */
  datatype Filter = Filter(
    kind: string, payTo: string, scheme: string, network: string, extension: string, needle: string)

  predicate Wanted(filter: string, value: Option<string>) {
    filter == "" || value == Some(filter)
  }

  predicate AcceptMatches(f: Filter, a: Accept) {
    a.Accept? && Wanted(f.payTo, a.payTo) && Wanted(f.scheme, a.scheme) && Wanted(f.network, a.network)
  }

  predicate Contains(text: string, needle: string) {
    exists i :: 0 <= i <= |text| - |needle| && text[i..][..|needle|] == needle
  }

  predicate Matches(f: Filter, item: Item) {
    && Wanted(f.kind, item.kind)
    && ((f.payTo == "" && f.scheme == "" && f.network == "") || exists a :: a in item.accepts && AcceptMatches(f, a))
    && (f.extension == "" || (item.extensions.Some? && f.extension in item.extensions.value))
    && (f.needle == "" || Contains(item.searchable, f.needle))
  }

  // ---- A stable sort ----

  predicate Sorted(items: seq<Item>) {
    forall i, j :: 0 <= i < j < |items| ==> KeyLeq(items[i].key, items[j].key)
  }

  /** The items with one key, in their order. */
  function WithKey(items: seq<Item>, key: SortKey): seq<Item> {
    if items == [] then []
    else (if items[0].key == key then [items[0]] else []) + WithKey(items[1..], key)
  }

  /** Puts an item before the first one with a key no smaller. */
  function InsertSorted(x: Item, items: seq<Item>): (r: seq<Item>)
    ensures multiset(r) == multiset{x} + multiset(items)
  {
    if items == [] || KeyLeq(x.key, items[0].key) then [x] + items
    else
      assert items == [items[0]] + items[1..];
      [items[0]] + InsertSorted(x, items[1..])
  }

  function StableSort(items: seq<Item>): (r: seq<Item>)
    ensures multiset(r) == multiset(items)
  {
    if items == [] then []
    else
      assert items == [items[0]] + items[1..];
      InsertSorted(items[0], StableSort(items[1..]))
  }

  lemma {:induction false} InsertKeepsSorted(x: Item, items: seq<Item>)
    requires Sorted(items)
    ensures Sorted(InsertSorted(x, items))
  {
    if items != [] {
      var head, rest := items[0], items[1..];
      if KeyLeq(x.key, head.key) {
        forall j | 0 <= j < |items| ensures KeyLeq(x.key, items[j].key) {
          if j > 0 { KeyLeqTransitive(x.key, head.key, items[j].key); }
        }
      } else {
        KeyLeqTotal(x.key, head.key);
        InsertKeepsSorted(x, rest);
        var r := InsertSorted(x, rest);
        forall j | 0 <= j < |r| ensures KeyLeq(head.key, r[j].key) {
          assert r[j] in multiset(r);
          assert r[j] == x || r[j] in rest;
        }
      }
    }
  }

  lemma {:induction false} InsertKeepsOthers(x: Item, items: seq<Item>, key: SortKey)
    ensures WithKey(InsertSorted(x, items), key) == WithKey([x] + items, key)
  {
    assert ([x] + items)[1..] == items;
    if items != [] && !KeyLeq(x.key, items[0].key) {
      KeyLeqTotal(x.key, items[0].key);
      InsertKeepsOthers(x, items[1..], key);
      assert ([x] + items[1..])[1..] == items[1..];
      var r := InsertSorted(x, items[1..]);
      assert ([items[0]] + r)[1..] == r;
    }
  }

  /** The sort returns the same items, in key order, and keeps the order of items with one key. */
  lemma {:induction false} StableSortIsStable(items: seq<Item>, key: SortKey)
    ensures Sorted(StableSort(items)) && multiset(StableSort(items)) == multiset(items)
    ensures WithKey(StableSort(items), key) == WithKey(items, key)
  {
    if items != [] {
      StableSortIsStable(items[1..], key);
      InsertKeepsSorted(items[0], StableSort(items[1..]));
      InsertKeepsOthers(items[0], StableSort(items[1..]), key);
      var sorted := StableSort(items[1..]);
      assert ([items[0]] + sorted)[1..] == sorted;
    }
  }

  // ---- The catalogue ----

  /** The matching entries behind some keys, in key order; keys whose entry is gone are skipped. */
  function Selected(keys: seq<nat>, entries: map<nat, Item>, f: Filter): seq<Item> {
    if keys == [] then []
    else
      var init, k := keys[..|keys| - 1], keys[|keys| - 1];
      Selected(init, entries, f) + (if k in entries && Matches(f, entries[k]) then [entries[k]] else [])
  }

  /** Everything a filter lists, before slicing. */
  function Listing(keys: seq<nat>, entries: map<nat, Item>, f: Filter): seq<Item> {
    StableSort(Selected(keys, entries, f))
  }

  function Min(a: nat, b: nat): nat { if a < b then a else b }

  /** Python's `items[offset : offset + limit]`. */
  function Slice(items: seq<Item>, offset: nat, limit: nat): (page: seq<Item>)
    ensures |page| <= limit
    ensures offset < |items| && limit > 0 ==> page != []
  {
    items[Min(offset, |items|)..Min(offset + limit, |items|)]
  }

  /** The index without the keys whose entry is gone. */
  function LiveKeys(keys: seq<nat>, entries: map<nat, Item>): seq<nat> {
    if keys == [] then []
    else
      var init, k := keys[..|keys| - 1], keys[|keys| - 1];
      LiveKeys(init, entries) + (if k in entries then [k] else [])
  }

  function Without(keys: seq<nat>, stale: set<nat>): seq<nat> {
    if keys == [] then []
    else Without(keys[..|keys| - 1], stale) + (if keys[|keys| - 1] in stale then [] else [keys[|keys| - 1]])
  }

  lemma {:induction false} StaleAreNotLive(keys: seq<nat>, stale: set<nat>, entries: map<nat, Item>)
    requires forall k :: k in keys ==> (k in stale <==> k !in entries)
    ensures Without(keys, stale) == LiveKeys(keys, entries)
    decreases |keys|
  {
    if keys != [] { StaleAreNotLive(keys[..|keys| - 1], stale, entries); }
  }

  /** A Redis sorted set holds a key once. */
  predicate Distinct(keys: seq<nat>) {
    forall i, j :: 0 <= i < j < |keys| ==> keys[i] != keys[j]
  }

  lemma {:induction false} LiveKeysAreDistinct(keys: seq<nat>, entries: map<nat, Item>)
    requires Distinct(keys)
    ensures Distinct(LiveKeys(keys, entries))
    ensures forall k :: k in LiveKeys(keys, entries) <==> k in keys && k in entries
    decreases |keys|
  {
    if keys != [] {
      var init := keys[..|keys| - 1];
      LiveKeysAreDistinct(init, entries);
      assert keys == init + [keys[|keys| - 1]];
    }
  }

  /** `BazaarCatalog` over its Redis index and entries; entries expire on their own. */
  class BazaarCatalog {
    var index: seq<nat>
    var entries: map<nat, Item>

    constructor ()
      ensures index == [] && entries == map[] && Distinct(index)
    {
      index, entries := [], map[];
    }

    /** `list`: answers from the live entries and drops the other keys from the index. */
    method List(f: Filter, limit: nat, offset: nat) returns (items: seq<Item>, total: nat)
      requires Distinct(index)
      modifies this`index
      ensures Distinct(index)
      ensures items == Slice(Listing(old(index), entries, f), offset, limit)
      ensures total == |Listing(old(index), entries, f)|
      ensures index == LiveKeys(old(index), entries)
    {
      var found: seq<Item> := [];
      var stale: set<nat> := {};
      var keys := index;
      for i := 0 to |keys|
        invariant found == Selected(keys[..i], entries, f)
        invariant forall k :: k in keys[..i] ==> (k in stale <==> k !in entries)
        invariant forall k :: k in stale ==> k !in entries
      {
        var k := keys[i];
        assert keys[..i + 1][..i] == keys[..i];
        if k !in entries {
          stale := stale + {k};
        } else if Matches(f, entries[k]) {
          found := found + [entries[k]];
        }
      }
      assert keys[..|keys|] == keys;
      StaleAreNotLive(keys, stale, entries);
      LiveKeysAreDistinct(keys, entries);
      index := Without(keys, stale);
      found := StableSort(found);
      items, total := Slice(found, offset, limit), |found|;
    }
  }

  lemma SelectedStep(keys: seq<nat>, k: nat, entries: map<nat, Item>, f: Filter)
    ensures Selected(keys + [k], entries, f)
         == Selected(keys, entries, f) + (if k in entries && Matches(f, entries[k]) then [entries[k]] else [])
  {
    assert (keys + [k])[..|keys|] == keys;
  }

  /** Dropping stale keys changes no listing, so a walk sees one list however often it lists. */
  lemma {:induction false} PruningKeepsListing(keys: seq<nat>, entries: map<nat, Item>, f: Filter)
    ensures Selected(LiveKeys(keys, entries), entries, f) == Selected(keys, entries, f)
    ensures Listing(LiveKeys(keys, entries), entries, f) == Listing(keys, entries, f)
    decreases |keys|
  {
    if keys != [] {
      var init, k := keys[..|keys| - 1], keys[|keys| - 1];
      PruningKeepsListing(init, entries, f);
      if k in entries {
        SelectedStep(LiveKeys(init, entries), k, entries, f);
      } else {
        assert LiveKeys(init, entries) + [] == LiveKeys(init, entries);
      }
    }
  }

  // ---- The cursor ----

  /** base64url as in section 5 of RFC 4648, taken as an inverse pair on texts. */
  datatype Cursor = Base64Of(text: string) | Undecodable

  /** Python's `int(text)`: outer white space, an optional sign, digits. */
  function ParseInt(text: string): (n: Option<int>) {
    var s := Strip(text);
    if s == "" then None
    else if s[0] == '-' then if IsDigits(s[1..]) then Some(-(IntValue(s[1..]) as int)) else None
    else if s[0] == '+' then if IsDigits(s[1..]) then Some(IntValue(s[1..])) else None
    else if IsDigits(s) then Some(IntValue(s)) else None
  }

  function EncodeCursor(offset: nat): Cursor {
    Base64Of(DecimalText(offset))
  }

  /** `_decode_cursor`; Err is the HTTP 400. */
  function DecodeCursor(cursor: Option<Cursor>): Result<nat, ()> {
    if cursor.None? || cursor.value == Base64Of("") then Ok(0)
    else if cursor.value.Undecodable? || ParseInt(cursor.value.text).None? then Err(())
    else
      var n := ParseInt(cursor.value.text).value;
      Ok(if n < 0 then 0 else n)
  }

  /** A cursor that the search hands out is read back as the same offset. */
  lemma CursorRoundTrip(offset: nat)
    ensures DecodeCursor(Some(EncodeCursor(offset))) == Ok(offset)
  {
    DecimalTextReads(offset);
    var text := DecimalText(offset);
    assert IsDigit(text[0]) && IsDigit(text[|text| - 1]);
    StripOfTrimmed(text);
  }

  // ---- The search endpoint and its walk ----

  datatype SearchPage = SearchPage(resources: seq<Item>, partialResults: bool, cursor: Option<Cursor>)

  /** `discovery_search` over one listing. */
  function Search(list: seq<Item>, limit: nat, cursor: Option<Cursor>): Result<SearchPage, ()> {
    var offset := DecodeCursor(cursor);
    if offset.Err? then Err(())
    else
      var items := Slice(list, offset.value, limit);
      var next := offset.value + |items|;
      Ok(SearchPage(items, next < |list|, if next < |list| then Some(EncodeCursor(next)) else None))
  }

  function Remaining(list: seq<Item>, cursor: Option<Cursor>): nat {
    var offset := DecodeCursor(cursor);
    if offset.Ok? && offset.value < |list| then |list| - offset.value else 0
  }

  lemma CursorMovesOn(list: seq<Item>, limit: nat, cursor: Option<Cursor>)
    requires limit >= 1 && Search(list, limit, cursor).Ok? && Search(list, limit, cursor).value.cursor.Some?
    ensures var page := Search(list, limit, cursor).value;
            && |page.resources| == limit && DecodeCursor(cursor).value + limit < |list|
            && DecodeCursor(page.cursor) == Ok(DecodeCursor(cursor).value + limit)
            && Remaining(list, page.cursor) < Remaining(list, cursor)
  {
    var offset := DecodeCursor(cursor).value;
    CursorRoundTrip(offset + |Slice(list, offset, limit)|);
  }

  /** Paging by offsets, without cursors. */
  function PagesFrom(list: seq<Item>, limit: nat, offset: nat): seq<seq<Item>>
    requires limit >= 1
    decreases |list| - Min(offset, |list|)
  {
    var page := Slice(list, offset, limit);
    [page] + if offset + |page| < |list| then PagesFrom(list, limit, offset + limit) else []
  }

  function Joined(pages: seq<seq<Item>>): seq<Item> {
    if pages == [] then [] else pages[0] + Joined(pages[1..])
  }

  /** The resources of the pages a client gets by following cursors until there is none; it always
      gets to the end, because every cursor moves on. */
  function FollowCursors(list: seq<Item>, limit: nat, cursor: Option<Cursor>): seq<seq<Item>>
    requires limit >= 1
    decreases Remaining(list, cursor)
  {
    var answer := Search(list, limit, cursor);
    if answer.Err? then []
    else if answer.value.cursor.None? then [answer.value.resources]
    else
      CursorMovesOn(list, limit, cursor);
      [answer.value.resources] + FollowCursors(list, limit, answer.value.cursor)
  }

  /** Following cursors is paging by offsets: the opaque cursor carries the offset faithfully. */
  lemma {:induction false} CursorsCarryOffsets(list: seq<Item>, limit: nat, cursor: Option<Cursor>)
    requires limit >= 1 && DecodeCursor(cursor).Ok?
    ensures FollowCursors(list, limit, cursor) == PagesFrom(list, limit, DecodeCursor(cursor).value)
    decreases Remaining(list, cursor)
  {
    var page := Search(list, limit, cursor).value;
    if page.cursor.Some? {
      CursorMovesOn(list, limit, cursor);
      CursorsCarryOffsets(list, limit, page.cursor);
    }
  }

  lemma JoinedCons(page: seq<Item>, rest: seq<seq<Item>>)
    ensures Joined([page] + rest) == page + Joined(rest)
  {
    assert ([page] + rest)[1..] == rest;
  }

  lemma {:induction false} PagesJoinToRest(list: seq<Item>, limit: nat, offset: nat)
    requires limit >= 1 && offset <= |list|
    ensures Joined(PagesFrom(list, limit, offset)) == list[offset..]
    decreases |list| - offset
  {
    var page := Slice(list, offset, limit);
    if offset + |page| < |list| {
      PagesJoinToRest(list, limit, offset + limit);
      JoinedCons(page, PagesFrom(list, limit, offset + limit));
    } else {
      JoinedCons(page, []);
    }
  }

  /** `k` pages are just enough for `n` items: full ones and a last one that is not empty. */
  predicate JustEnough(n: nat, limit: nat, k: nat) {
    if n == 0 then k == 1 else (k - 1) * limit < n <= k * limit
  }

  lemma {:induction false} PagesAreJustEnough(list: seq<Item>, limit: nat, offset: nat)
    requires limit >= 1 && offset <= |list|
    ensures JustEnough(|list| - offset, limit, |PagesFrom(list, limit, offset)|)
    decreases |list| - offset
  {
    if offset + |Slice(list, offset, limit)| < |list| {
      var k := |PagesFrom(list, limit, offset + limit)|;
      PagesAreJustEnough(list, limit, offset + limit);
      assert (k + 1) * limit == k * limit + limit;
    }
  }

  /** The keys under which a matching live entry equals `item`. */
  function KeysOf(keys: seq<nat>, entries: map<nat, Item>, f: Filter, item: Item): set<nat> {
    set k | k in keys && Picks(entries, f, k, item)
  }

  predicate Picks(entries: map<nat, Item>, f: Filter, k: nat, item: Item) {
    k in entries && Matches(f, entries[k]) && entries[k] == item
  }

  lemma KeysOfStep(keys: seq<nat>, k: nat, entries: map<nat, Item>, f: Filter, item: Item)
    requires k !in keys
    ensures |KeysOf(keys + [k], entries, f, item)|
         == |KeysOf(keys, entries, f, item)| + (if Picks(entries, f, k, item) then 1 else 0)
  {
    var before, after := KeysOf(keys, entries, f, item), KeysOf(keys + [k], entries, f, item);
    assert after == if Picks(entries, f, k, item) then before + {k} else before;
  }

  lemma SelectedCountStep(keys: seq<nat>, k: nat, entries: map<nat, Item>, f: Filter, item: Item)
    ensures multiset(Selected(keys + [k], entries, f))[item]
         == multiset(Selected(keys, entries, f))[item] + (if Picks(entries, f, k, item) then 1 else 0)
  {
    SelectedStep(keys, k, entries, f);
  }

  /** With distinct index keys, every matching live entry is selected exactly once. */
  lemma {:induction false} EachKeyOnce(keys: seq<nat>, entries: map<nat, Item>, f: Filter, item: Item)
    requires Distinct(keys)
    ensures multiset(Selected(keys, entries, f))[item] == |KeysOf(keys, entries, f, item)|
    decreases |keys|
  {
    if keys != [] {
      var init, k := keys[..|keys| - 1], keys[|keys| - 1];
      assert keys == init + [k];
      EachKeyOnce(init, entries, f, item);
      KeysOfStep(init, k, entries, f, item);
      SelectedCountStep(init, k, entries, f, item);
    }
  }

  lemma ListingIsSortedOnce(keys: seq<nat>, entries: map<nat, Item>, f: Filter)
    requires Distinct(keys)
    ensures Sorted(Listing(keys, entries, f))
    ensures forall item :: multiset(Listing(keys, entries, f))[item] == |KeysOf(keys, entries, f, item)|
  {
    StableSortIsStable(Selected(keys, entries, f), SortKey("", "", ""));
    forall item ensures multiset(Selected(keys, entries, f))[item] == |KeysOf(keys, entries, f, item)| {
      EachKeyOnce(keys, entries, f, item);
    }
  }

  /** The cursor walk is complete: on a fixed catalogue, for every filter and every limit of at
      least one, following the search cursors from the start ends, and the pages joined are exactly
      the sorted filtered list, in which every matching live entry of the index stands once. */
  lemma CursorWalkIsComplete(keys: seq<nat>, entries: map<nat, Item>, f: Filter, limit: nat)
    requires limit >= 1 && Distinct(keys)
    ensures var list := Listing(keys, entries, f);
            && Joined(FollowCursors(list, limit, None)) == list
            && Sorted(list)
            && (forall item :: multiset(list)[item] == |KeysOf(keys, entries, f, item)|)
            && JustEnough(|list|, limit, |FollowCursors(list, limit, None)|)
  {
    var list := Listing(keys, entries, f);
    ListingIsSortedOnce(keys, entries, f);
    CursorsCarryOffsets(list, limit, None);
    PagesJoinToRest(list, limit, 0);
    PagesAreJustEnough(list, limit, 0);
  }

  // ---- What the filters and the order mean ----

  const ALL := Filter("", "", "", "", "", "")

  /** An option of the item that one test accepts. */
  ghost predicate SomeOption(item: Item, test: Accept -> bool) {
    exists a :: a in item.accepts && a.Accept? && test(a)
  }

  /** One filter at a time: type, payee, scheme, network, extension, query. */
  lemma FilterMeans(item: Item, value: string)
    requires value != ""
    ensures Matches(ALL, item)
    ensures Matches(ALL.(kind := value), item) <==> item.kind == Some(value)
    ensures Matches(ALL.(payTo := value), item)
            <==> SomeOption(item, (a: Accept) => a.Accept? && a.payTo == Some(value))
    ensures Matches(ALL.(scheme := value), item)
            <==> SomeOption(item, (a: Accept) => a.Accept? && a.scheme == Some(value))
    ensures Matches(ALL.(network := value), item)
            <==> SomeOption(item, (a: Accept) => a.Accept? && a.network == Some(value))
    ensures Matches(ALL.(extension := value), item)
            <==> item.extensions.Some? && value in item.extensions.value
    ensures Matches(ALL.(needle := value), item)
            <==> exists i, j :: 0 <= i <= j <= |item.searchable| && item.searchable[i..j] == value
  {
    OnePayTo(item, value);
    OneScheme(item, value);
    OneNetwork(item, value);
    ContainsMeans(item.searchable, value);
  }

  lemma OnePayTo(item: Item, value: string)
    requires value != ""
    ensures Matches(ALL.(payTo := value), item)
            <==> SomeOption(item, (a: Accept) => a.Accept? && a.payTo == Some(value))
  {
    var f := ALL.(payTo := value);
    assert forall a :: AcceptMatches(f, a) <==> a.Accept? && a.payTo == Some(value);
  }

  lemma OneScheme(item: Item, value: string)
    requires value != ""
    ensures Matches(ALL.(scheme := value), item)
            <==> SomeOption(item, (a: Accept) => a.Accept? && a.scheme == Some(value))
  {
    var f := ALL.(scheme := value);
    assert forall a :: AcceptMatches(f, a) <==> a.Accept? && a.scheme == Some(value);
  }

  lemma OneNetwork(item: Item, value: string)
    requires value != ""
    ensures Matches(ALL.(network := value), item)
            <==> SomeOption(item, (a: Accept) => a.Accept? && a.network == Some(value))
  {
    var f := ALL.(network := value);
    assert forall a :: AcceptMatches(f, a) <==> a.Accept? && a.network == Some(value);
  }

  lemma ContainsMeans(text: string, needle: string)
    ensures Contains(text, needle) <==> exists i, j :: 0 <= i <= j <= |text| && text[i..j] == needle
  {
    if Contains(text, needle) {
      var i :| 0 <= i <= |text| - |needle| && text[i..][..|needle|] == needle;
      assert text[i..i + |needle|] == text[i..][..|needle|];
    }
    if i, j :| 0 <= i <= j <= |text| && text[i..j] == needle {
      assert text[i..][..|needle|] == text[i..j];
    }
  }

  /** Filters combine: the payee, scheme and network asked for must be those of one and the same
      option; every other filter stands alone. */
  lemma FiltersCombine(f: Filter, item: Item)
    requires f.payTo != "" && f.scheme != "" && f.network != ""
    ensures Matches(f, item)
            <==> && Matches(ALL.(kind := f.kind), item) && Matches(ALL.(extension := f.extension), item)
                 && Matches(ALL.(needle := f.needle), item)
                 && Accept(Some(f.payTo), Some(f.scheme), Some(f.network)) in item.accepts
  {
    var wanted := Accept(Some(f.payTo), Some(f.scheme), Some(f.network));
    assert forall a :: AcceptMatches(f, a) <==> a == wanted;
  }

  /** The texts agree up to `i`, where `a` has the smaller character. */
  predicate SmallerAt(a: string, b: string, i: nat) {
    i < |a| && i < |b| && a[i] < b[i] && forall k :: 0 <= k < i ==> a[k] == b[k]
  }

  lemma SmallerLater(a: string, b: string, i: nat)
    requires a != "" && b != "" && a[0] == b[0]
    ensures SmallerAt(a, b, i + 1) <==> SmallerAt(a[1..], b[1..], i)
  {
    if SmallerAt(a[1..], b[1..], i) {
      forall k | 0 <= k < i + 1 ensures a[k] == b[k] {
        if k > 0 { assert a[1..][k - 1] == b[1..][k - 1]; }
      }
    }
  }

  lemma {:induction false} LeqIsPrefixOrSmaller(a: string, b: string)
    requires TextLeq(a, b)
    ensures a <= b || exists i: nat :: SmallerAt(a, b, i)
    decreases |a|
  {
    if a != "" {
      if a[0] < b[0] {
        assert SmallerAt(a, b, 0);
      } else {
        LeqIsPrefixOrSmaller(a[1..], b[1..]);
        if i: nat :| SmallerAt(a[1..], b[1..], i) {
          SmallerLater(a, b, i);
          assert SmallerAt(a, b, i + 1);
        } else {
          assert a == [a[0]] + a[1..] && b == [b[0]] + b[1..];
        }
      }
    }
  }

  lemma {:induction false} PrefixIsLeq(a: string, b: string)
    requires a <= b
    ensures TextLeq(a, b)
    decreases |a|
  {
    if a != "" { PrefixIsLeq(a[1..], b[1..]); }
  }

  lemma {:induction false} SmallerIsLeq(a: string, b: string, i: nat)
    requires SmallerAt(a, b, i)
    ensures TextLeq(a, b)
    decreases |a|
  {
    if i > 0 {
      assert a[0] == b[0];
      SmallerLater(a, b, i - 1);
      SmallerIsLeq(a[1..], b[1..], i - 1);
    }
  }

  /** The order on texts: a prefix comes first, otherwise the first difference decides. */
  lemma TextLeqMeans(a: string, b: string)
    ensures TextLeq(a, b) <==> a <= b || exists i: nat :: SmallerAt(a, b, i)
  {
    if TextLeq(a, b) { LeqIsPrefixOrSmaller(a, b); }
    if a <= b { PrefixIsLeq(a, b); }
    if i: nat :| SmallerAt(a, b, i) { SmallerIsLeq(a, b, i); }
  }

  /** A listing is in order of resource, within one resource of type, within one type of extensions. */
  lemma SortedMeans(items: seq<Item>, i: nat, j: nat)
    requires Sorted(items) && i < j < |items|
    ensures TextLeq(items[i].key.resource, items[j].key.resource)
    ensures items[i].key.resource == items[j].key.resource ==> TextLeq(items[i].key.kind, items[j].key.kind)
    ensures items[i].key.resource == items[j].key.resource && items[i].key.kind == items[j].key.kind
            ==> TextLeq(items[i].key.extensions, items[j].key.extensions)
  {
    assert KeyLeq(items[i].key, items[j].key);
    TextLeqTotal(items[i].key.resource, items[j].key.resource);
    TextLeqTotal(items[i].key.kind, items[j].key.kind);
  }

  // ---- Foreign cursors ----

  /** Signs and outer blanks are read like Python's `int`, below zero is the start, and anything else
      is refused. */
  lemma ForeignCursors(n: nat)
    ensures DecodeCursor(None) == Ok(0) && DecodeCursor(Some(Base64Of(""))) == Ok(0)
    ensures DecodeCursor(Some(Base64Of("-" + DecimalText(n)))) == Ok(0)
    ensures DecodeCursor(Some(Base64Of("+" + DecimalText(n)))) == Ok(n)
    ensures DecodeCursor(Some(Undecodable)) == Err(())
  {
    DecimalTextReads(n);
    var text := DecimalText(n);
    SignedText("-", text);
    SignedText("+", text);
  }

  lemma SignedText(sign: string, text: string)
    requires (sign == "-" || sign == "+") && IsDigits(text)
    ensures Strip(sign + text) == sign + text && (sign + text)[1..] == text
  {
    assert (sign + text)[|sign + text| - 1] == text[|text| - 1] && IsDigit(text[|text| - 1]);
    StripOfTrimmed(sign + text);
  }

  /** A cursor is refused exactly when it does not decode to the text of a whole number. */
  lemma CursorRefusedExactly(c: Cursor)
    ensures DecodeCursor(Some(c)).Err?
            <==> c.Undecodable? || (c.text != "" && ParseInt(c.text) == None)
    ensures c.Base64Of? && IsDigits(c.text) ==> DecodeCursor(Some(c)) == Ok(IntValue(c.text))
  {
    if c.Base64Of? && IsDigits(c.text) {
      assert IsDigit(c.text[0]) && IsDigit(c.text[|c.text| - 1]);
      StripOfTrimmed(c.text);
    }
  }

  /** A page says that there is more exactly when it hands out a cursor, which is exactly when items
      are left behind it. */
  lemma PartialExactly(list: seq<Item>, limit: nat, cursor: Option<Cursor>)
    ensures Search(list, limit, cursor).Err? <==> DecodeCursor(cursor).Err?
    ensures Search(list, limit, cursor).Ok? ==>
              var page, offset := Search(list, limit, cursor).value, DecodeCursor(cursor).value;
              && (page.partialResults <==> page.cursor.Some?)
              && (page.partialResults <==> offset + |page.resources| < |list|)
              && page.resources == Slice(list, offset, limit)
  {
  }
}
