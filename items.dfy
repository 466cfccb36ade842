/**
 * The item operations of the handler (`getItems`, `getItem`, `createItem`,
 * `updateItem`, `deleteItem`) over a key/value table keyed by `id`.
 *
 * Each operation is given twice: as a pure function from the table's contents
 * (and the inputs the environment supplies: a fresh identifier, the current
 * time, a possible store failure) to the new contents and the outcome, and as a
 * method of `ItemTable` that changes the table's `items` field the way the
 * store's conditional write does, proved equal to that function. Every store
 * call is one atomic map update guarded by a key-membership test.
 */
module Items {
  import opened Wrappers
  import opened Json
  import opened Http

  const ItemNotFound: string := "Item not found"
  const AlreadyExists: string := "Item with this ID already exists"
  const Deleted: string := "Item deleted successfully"

  /** An operation either returns a response or throws; the handler catches what is thrown. */
  datatype Outcome = Returned(response: Response) | Threw(fault: Fault)

  /** The table contents after an operation, with its outcome. */
  datatype Step = Step(table: map<string, Item>, outcome: Outcome)

  /** The operation returned a response with this status code. */
  predicate Answered(o: Outcome, code: int)
  {
    o.Returned? && o.response.statusCode == code
  }

  /** Every stored item carries its own key as its `id`: at most one item per identifier. */
  predicate WellKeyed(t: map<string, Item>)
  {
    forall k | k in t :: KeyOf(t[k]) == Some(k)
  }

  /**
   * `keys` shows `s` to be an ordering of the table: the i-th entry of `s` is
   * the item stored under `keys[i]`, and `keys` names every key exactly once.
   */
  predicate ListedBy(keys: seq<string>, s: seq<Item>, t: map<string, Item>)
  {
    && |keys| == |s|
    && (forall i | 0 <= i < |keys| :: keys[i] in t && s[i] == t[keys[i]])
    && (forall i, j | 0 <= i < j < |keys| :: keys[i] != keys[j])
    && (forall k | k in t :: k in keys)
  }

  /** `s` lists the table: the stored items, one entry per key, in some order. */
  ghost predicate IsListing(s: seq<Item>, t: map<string, Item>)
  {
    exists keys :: ListedBy(keys, s, t)
  }

  /** A sequence of distinct keys that covers a set has exactly as many entries as the set. */
  lemma {:induction false} DistinctCover(keys: seq<string>, ks: set<string>)
    requires forall i, j | 0 <= i < j < |keys| :: keys[i] != keys[j]
    requires forall i | 0 <= i < |keys| :: keys[i] in ks
    requires forall k | k in ks :: k in keys
    ensures |ks| == |keys|
    decreases |keys|
  {
    if keys != [] {
      var n := |keys| - 1;
      var init := keys[..n];
      forall k | k in ks - {keys[n]} ensures k in init {
        var i :| 0 <= i < |keys| && keys[i] == k;
        assert i < n && init[i] == k;
      }
      forall i | 0 <= i < |init| ensures init[i] in ks - {keys[n]} {
        assert init[i] == keys[i];
      }
      DistinctCover(init, ks - {keys[n]});
    }
  }

  /** A listing has one entry per key, holds every stored item, and nothing else. */
  lemma ListingContents(s: seq<Item>, t: map<string, Item>)
    requires IsListing(s, t)
    ensures |s| == |t|
    ensures forall x :: x in s <==> x in t.Values
  {
    var keys :| ListedBy(keys, s, t);
    DistinctCover(keys, t.Keys);
    forall x ensures x in s <==> x in t.Values {
      if x in t.Values {
        var k :| k in t && t[k] == x;
        var i :| 0 <= i < |keys| && keys[i] == k;
        assert s[i] == x;
      }
    }
  }

  // ---------------------------------------------------------------------
  // The items the two writes store
  // ---------------------------------------------------------------------

  /**
   * The item `createItem` writes (lambda/index.js:102-107): the body, with `id`
   * set to the fresh identifier when the body's `id` is missing or falsy, and
   * `createdAt` stamped (overwriting any the client sent).
   */
  function Prepared(body: Item, freshId: string, now: string): (item: Item)
    ensures item.Keys == body.Keys + {Id, CreatedAt}
    ensures item[CreatedAt] == Str(now)
    ensures item[Id] == if HasId(body) then body[Id] else Str(freshId)
    ensures forall a | a in body && a != Id && a != CreatedAt :: item[a] == body[a]
    ensures KeyOf(body).Some? ==> KeyOf(item) == KeyOf(body)
    ensures !HasId(body) ==> KeyOf(item) == if freshId == "" then None else Some(freshId)
  {
    var named := if HasId(body) then body else body[Id := Str(freshId)];
    named[CreatedAt := Str(now)]
  }

  /**
   * The item `updateItem` writes (lambda/index.js:130-133): the body, with `id`
   * forced to the path identifier and `updatedAt` stamped. Nothing is merged
   * from the stored item.
   */
  function Revised(id: string, body: Item, now: string): (item: Item)
    ensures item.Keys == body.Keys + {Id, UpdatedAt}
    ensures item[Id] == Str(id) && item[UpdatedAt] == Str(now)
    ensures forall a | a in body && a != Id && a != UpdatedAt :: item[a] == body[a]
    ensures KeyOf(item) == if id == "" then None else Some(id)
  {
    body[Id := Str(id)][UpdatedAt := Str(now)]
  }

  // ---------------------------------------------------------------------
  // The operations as functions of the table's contents
  // ---------------------------------------------------------------------

  /**
   * `getItem` with the intended point lookup by key. The source calls `scan`
   * with a `Key` and then reads `result.Item` (lambda/index.js:88-89), which a
   * scan never returns; this model does not reproduce that and looks the key up.
   */
  function Get(t: map<string, Item>, id: string, fault: Option<string>): (o: Outcome)
    ensures Answered(o, 200) <==> fault.None? && id != "" && id in t
    ensures Answered(o, 200) ==> o.response.body == ItemBody(t[id])
    ensures Answered(o, 404) <==> fault.None? && id != "" && id !in t
    ensures Answered(o, 404) ==> o.response.body == Message(ItemNotFound)
    ensures o.Threw? <==> fault.Some? || id == ""
    ensures fault.Some? ==> o == Threw(StoreFailure(fault.value))
    ensures fault.None? && id == "" ==> o == Threw(KeyRejected)
    ensures o.Returned? ==> o.response.headers == StandardHeaders
  {
    if fault.Some? then Threw(StoreFailure(fault.value))
    else if id == "" then Threw(KeyRejected)
    else if id !in t then Returned(BuildResponse(404, Message(ItemNotFound)))
    else Returned(BuildResponse(200, ItemBody(t[id])))
  }

  /**
   * `createItem` (lambda/index.js:100-124): write the prepared item under the
   * condition `attribute_not_exists(id)`; a failed condition answers 409.
   */
  function Create(t: map<string, Item>, body: Item, freshId: string, now: string, fault: Option<string>): (s: Step)
    ensures var item := Prepared(body, freshId, now);
      && (Answered(s.outcome, 201) <==> fault.None? && KeyOf(item).Some? && KeyOf(item).value !in t)
      && (Answered(s.outcome, 201) ==>
            s.table == t[KeyOf(item).value := item] && s.outcome.response.body == ItemBody(item))
      && (Answered(s.outcome, 409) <==> fault.None? && KeyOf(item).Some? && KeyOf(item).value in t)
      && (Answered(s.outcome, 409) ==> s.outcome.response.body == Message(AlreadyExists))
      && (s.outcome.Threw? <==> fault.Some? || KeyOf(item).None?)
      && (fault.None? && KeyOf(item).None? ==> s == Step(t, Threw(KeyRejected)))
    ensures fault.Some? ==> s == Step(t, Threw(StoreFailure(fault.value)))
    ensures !Answered(s.outcome, 201) ==> s.table == t
    ensures s.table.Keys >= t.Keys && forall k | k in t :: s.table[k] == t[k]
    ensures s.outcome.Returned? ==>
              s.outcome.response.headers == StandardHeaders && s.outcome.response.statusCode in {201, 409}
    ensures WellKeyed(t) ==> WellKeyed(s.table)
  {
    var item := Prepared(body, freshId, now);
    if fault.Some? then Step(t, Threw(StoreFailure(fault.value)))
    else match KeyOf(item)
      case None => Step(t, Threw(KeyRejected))
      case Some(k) =>
        if k in t then Step(t, Returned(BuildResponse(409, Message(AlreadyExists))))
        else Step(t[k := item], Returned(BuildResponse(201, ItemBody(item))))
  }

  /**
   * `updateItem` (lambda/index.js:128-150): write the revised item under the
   * condition `attribute_exists(id)`, replacing the stored item as a whole; a
   * failed condition answers 404.
   */
  function Update(t: map<string, Item>, id: string, body: Item, now: string, fault: Option<string>): (s: Step)
    ensures var item := Revised(id, body, now);
      && (Answered(s.outcome, 200) <==> fault.None? && id != "" && id in t)
      && (Answered(s.outcome, 200) ==> s.table == t[id := item] && s.outcome.response.body == ItemBody(item))
      && (Answered(s.outcome, 404) <==> fault.None? && id != "" && id !in t)
      && (Answered(s.outcome, 404) ==> s.outcome.response.body == Message(ItemNotFound))
      && (s.outcome.Threw? <==> fault.Some? || id == "")
    ensures fault.Some? ==> s == Step(t, Threw(StoreFailure(fault.value)))
    ensures fault.None? && id == "" ==> s == Step(t, Threw(KeyRejected))
    ensures !Answered(s.outcome, 200) ==> s.table == t
    ensures s.table.Keys == t.Keys
    ensures forall k | k in t && k != id :: s.table[k] == t[k]
    ensures s.outcome.Returned? ==>
              s.outcome.response.headers == StandardHeaders && s.outcome.response.statusCode in {200, 404}
    ensures WellKeyed(t) ==> WellKeyed(s.table)
  {
    var item := Revised(id, body, now);
    if fault.Some? then Step(t, Threw(StoreFailure(fault.value)))
    else if id == "" then Step(t, Threw(KeyRejected))
    else if id !in t then Step(t, Returned(BuildResponse(404, Message(ItemNotFound))))
    else Step(t[id := item], Returned(BuildResponse(200, ItemBody(item))))
  }

  /**
   * `deleteItem` (lambda/index.js:154-170): delete the key, asking for the old
   * value back; no old value answers 404.
   */
  function Delete(t: map<string, Item>, id: string, fault: Option<string>): (s: Step)
    ensures Answered(s.outcome, 200) <==> fault.None? && id != "" && id in t
    ensures Answered(s.outcome, 200) ==>
              s.table == t - {id} && s.outcome.response.body == Message(Deleted)
    ensures Answered(s.outcome, 404) <==> fault.None? && id != "" && id !in t
    ensures Answered(s.outcome, 404) ==> s.outcome.response.body == Message(ItemNotFound)
    ensures s.outcome.Threw? <==> fault.Some? || id == ""
    ensures fault.Some? ==> s == Step(t, Threw(StoreFailure(fault.value)))
    ensures fault.None? && id == "" ==> s == Step(t, Threw(KeyRejected))
    ensures !Answered(s.outcome, 200) ==> s.table == t
    ensures s.table.Keys <= t.Keys && forall k | k in t && k != id :: k in s.table && s.table[k] == t[k]
    ensures s.outcome.Returned? ==>
              s.outcome.response.headers == StandardHeaders && s.outcome.response.statusCode in {200, 404}
    ensures WellKeyed(t) ==> WellKeyed(s.table)
  {
    if fault.Some? then Step(t, Threw(StoreFailure(fault.value)))
    else if id == "" then Step(t, Threw(KeyRejected))
    else if id !in t then Step(t, Returned(BuildResponse(404, Message(ItemNotFound))))
    else Step(t - {id}, Returned(BuildResponse(200, Message(Deleted))))
  }

  // ---------------------------------------------------------------------
  // The table
  // ---------------------------------------------------------------------

  /** The items table. `items` is its whole contents; the methods are the handler's item operations. */
  class ItemTable {
    var items: map<string, Item>

    ghost predicate Valid()
      reads this
    {
      WellKeyed(items)
    }

    constructor ()
      ensures Valid() && items == map[]
    {
      items := map[];
    }

    /**
     * `getItems` (lambda/index.js:66-77): scan the table. The store hands back
     * its items in an order of its own; here it takes the remaining keys one at
     * a time in whatever order it likes. The table is only read.
     */
    method GetItems(fault: Option<string>) returns (o: Outcome)
      ensures fault.Some? ==> o == Threw(StoreFailure(fault.value))
      ensures fault.None? ==>
                Answered(o, 200) && o.response.headers == StandardHeaders &&
                o.response.body.ItemList? && IsListing(o.response.body.items, items)
    {
      if fault.Some? {
        return Threw(StoreFailure(fault.value));
      }
      var listed: seq<Item> := [];
      ghost var keys: seq<string> := [];
      var rest := items.Keys;
      while rest != {}
        invariant rest <= items.Keys
        invariant |keys| == |listed|
        invariant forall i | 0 <= i < |keys| :: keys[i] in items && keys[i] !in rest && listed[i] == items[keys[i]]
        invariant forall i, j | 0 <= i < j < |keys| :: keys[i] != keys[j]
        invariant forall k | k in items && k !in rest :: k in keys
        decreases rest
      {
        var k :| k in rest;
        listed := listed + [items[k]];
        keys := keys + [k];
        rest := rest - {k};
      }
      assert ListedBy(keys, listed, items);
      o := Returned(BuildResponse(200, ItemList(listed)));
    }

    /** `getItem` (lambda/index.js:81-96), as a point lookup; the table is only read. */
    method GetItem(id: string, fault: Option<string>) returns (o: Outcome)
      ensures o == Get(items, id, fault)
    {
      if fault.Some? {
        return Threw(StoreFailure(fault.value));
      }
      if id == "" {
        return Threw(KeyRejected);
      }
      if id !in items {
        return Returned(BuildResponse(404, Message(ItemNotFound)));
      }
      o := Returned(BuildResponse(200, ItemBody(items[id])));
    }

    /** `createItem` (lambda/index.js:100-124): a put conditioned on the key being absent. */
    method CreateItem(body: Item, freshId: string, now: string, fault: Option<string>) returns (o: Outcome)
      requires Valid()
      modifies this
      ensures Valid()
      ensures Step(items, o) == Create(old(items), body, freshId, now, fault)
    {
      var item := body;
      if !HasId(item) {
        item := item[Id := Str(freshId)];
      }
      item := item[CreatedAt := Str(now)];
      if fault.Some? {
        return Threw(StoreFailure(fault.value));
      }
      var key := KeyOf(item);
      if key.None? {
        return Threw(KeyRejected);
      }
      if key.value in items {
        return Returned(BuildResponse(409, Message(AlreadyExists)));
      }
      items := items[key.value := item];
      o := Returned(BuildResponse(201, ItemBody(item)));
    }

    /** `updateItem` (lambda/index.js:128-150): a put conditioned on the key being present. */
    method UpdateItem(id: string, body: Item, now: string, fault: Option<string>) returns (o: Outcome)
      requires Valid()
      modifies this
      ensures Valid()
      ensures Step(items, o) == Update(old(items), id, body, now, fault)
    {
      var item := body[Id := Str(id)];
      item := item[UpdatedAt := Str(now)];
      if fault.Some? {
        return Threw(StoreFailure(fault.value));
      }
      if id == "" {
        return Threw(KeyRejected);
      }
      if id !in items {
        return Returned(BuildResponse(404, Message(ItemNotFound)));
      }
      items := items[id := item];
      o := Returned(BuildResponse(200, ItemBody(item)));
    }

    /** `deleteItem` (lambda/index.js:154-170): a delete that returns the old value, if any. */
    method DeleteItem(id: string, fault: Option<string>) returns (o: Outcome)
      requires Valid()
      modifies this
      ensures Valid()
      ensures Step(items, o) == Delete(old(items), id, fault)
    {
      if fault.Some? {
        return Threw(StoreFailure(fault.value));
      }
      if id == "" {
        return Threw(KeyRejected);
      }
      var previous: Option<Item> := if id in items then Some(items[id]) else None;
      items := items - {id};
      if previous.None? {
        return Returned(BuildResponse(404, Message(ItemNotFound)));
      }
      o := Returned(BuildResponse(200, Message(Deleted)));
    }
  }

  // ---------------------------------------------------------------------
  // Properties relating several operations
  // ---------------------------------------------------------------------

  /** Creating an item with the same explicit identifier twice answers 201, then 409 and writes nothing. */
  lemma CreateTwiceConflicts(t: map<string, Item>, body: Item, freshId: string, now: string, now': string)
    requires KeyOf(body).Some? && KeyOf(body).value !in t
    ensures var first := Create(t, body, freshId, now, None);
      && Answered(first.outcome, 201)
      && var second := Create(first.table, body, freshId, now', None);
      && Answered(second.outcome, 409) && second.table == first.table
  {
  }

  /** A created item reads back, stamped, under its key. */
  lemma CreateThenGet(t: map<string, Item>, body: Item, freshId: string, now: string)
    requires Answered(Create(t, body, freshId, now, None).outcome, 201)
    ensures var item := Prepared(body, freshId, now);
      Get(Create(t, body, freshId, now, None).table, KeyOf(item).value, None) ==
        Returned(BuildResponse(200, ItemBody(item)))
  {
  }

  /** A successful update reads back as the revised item, with the path identifier as its `id`. */
  lemma UpdateThenGet(t: map<string, Item>, id: string, body: Item, now: string)
    requires id != "" && id in t
    ensures var s := Update(t, id, body, now, None);
      && Get(s.table, id, None) == Returned(BuildResponse(200, ItemBody(Revised(id, body, now))))
      && s.table[id][Id] == Str(id)
  {
  }

  /**
   * Update replaces rather than merges: an item whose body leaves out
   * `createdAt` is stored without it, whatever the stored item had.
   */
  lemma UpdateForgetsCreatedAt(t: map<string, Item>, id: string, body: Item, now: string)
    requires id != "" && id in t && CreatedAt !in body
    ensures CreatedAt !in Update(t, id, body, now, None).table[id]
  {
  }

  /** Updating an absent identifier answers 404 and leaves the key absent. */
  lemma UpdateNeverCreates(t: map<string, Item>, id: string, body: Item, now: string, fault: Option<string>)
    requires id !in t
    ensures id !in Update(t, id, body, now, fault).table
    ensures fault.None? && id != "" ==> Answered(Update(t, id, body, now, fault).outcome, 404)
  {
  }

  /** After a successful delete, a lookup of the same identifier answers 404. */
  lemma DeleteThenGetNotFound(t: map<string, Item>, id: string)
    requires Answered(Delete(t, id, None).outcome, 200)
    ensures Answered(Get(Delete(t, id, None).table, id, None), 404)
  {
  }

  /** The items a sequence of successful creates stores: each body prepared with its own id and time. */
  function PreparedAll(bodies: seq<Item>, ids: seq<string>, nows: seq<string>): (items: seq<Item>)
    requires |ids| == |bodies| && |nows| == |bodies|
    ensures |items| == |bodies|
    ensures forall i | 0 <= i < |bodies| :: items[i] == Prepared(bodies[i], ids[i], nows[i])
  {
    if bodies == [] then []
    else [Prepared(bodies[0], ids[0], nows[0])] + PreparedAll(bodies[1..], ids[1..], nows[1..])
  }

  /**
   * The table after creating each body in turn with no store failure, the
   * i-th create drawing `ids[i]` as its fresh identifier and `nows[i]` as its time.
   */
  function CreateEach(t: map<string, Item>, bodies: seq<Item>, ids: seq<string>, nows: seq<string>): (r: map<string, Item>)
    requires |ids| == |bodies| && |nows| == |bodies|
    decreases |bodies|
  {
    if bodies == [] then t
    else CreateEach(Create(t, bodies[0], ids[0], nows[0], None).table, bodies[1..], ids[1..], nows[1..])
  }

  /**
   * Every create in the run writes under a valid key, given or generated, and
   * no two write under the same one.
   */
  predicate DistinctKeys(bodies: seq<Item>, ids: seq<string>, nows: seq<string>)
    requires |ids| == |bodies| && |nows| == |bodies|
  {
    && (forall i | 0 <= i < |bodies| :: KeyOf(Prepared(bodies[i], ids[i], nows[i])).Some?)
    && (forall i, j | 0 <= i < j < |bodies| ::
          KeyOf(Prepared(bodies[i], ids[i], nows[i])) != KeyOf(Prepared(bodies[j], ids[j], nows[j])))
  }

  /** Creating items under distinct keys not yet stored adds exactly those items to the table. */
  lemma {:induction false} CreateEachAdds(t: map<string, Item>, bodies: seq<Item>, ids: seq<string>, nows: seq<string>)
    requires |ids| == |bodies| && |nows| == |bodies|
    requires DistinctKeys(bodies, ids, nows)
    requires forall i | 0 <= i < |bodies| :: KeyOf(Prepared(bodies[i], ids[i], nows[i])).value !in t
    ensures var r := CreateEach(t, bodies, ids, nows);
      && |r| == |t| + |bodies|
      && forall x :: x in r.Values <==> x in t.Values || x in PreparedAll(bodies, ids, nows)
    decreases |bodies|
  {
    if bodies != [] {
      var item := Prepared(bodies[0], ids[0], nows[0]);
      var k := KeyOf(item).value;
      var t' := Create(t, bodies[0], ids[0], nows[0], None).table;
      assert t' == t[k := item];
      assert |t'| == |t| + 1;
      assert forall x :: x in t'.Values <==> x in t.Values || x == item by {
        forall x ensures x in t'.Values <==> x in t.Values || x == item {
          if x in t.Values {
            var j :| j in t && t[j] == x;
            assert t'[j] == x;
          }
          assert t'[k] == item;
        }
      }
      var bodies', ids', nows' := bodies[1..], ids[1..], nows[1..];
      forall i | 0 <= i < |bodies'|
        ensures KeyOf(Prepared(bodies'[i], ids'[i], nows'[i])).Some?
        ensures KeyOf(Prepared(bodies'[i], ids'[i], nows'[i])).value !in t'
      {
        assert bodies'[i] == bodies[i + 1] && ids'[i] == ids[i + 1] && nows'[i] == nows[i + 1];
        assert KeyOf(item) != KeyOf(Prepared(bodies[i + 1], ids[i + 1], nows[i + 1]));
      }
      assert DistinctKeys(bodies', ids', nows') by {
        forall i, j | 0 <= i < j < |bodies'|
          ensures KeyOf(Prepared(bodies'[i], ids'[i], nows'[i])) != KeyOf(Prepared(bodies'[j], ids'[j], nows'[j]))
        {
          assert bodies'[i] == bodies[i + 1] && ids'[i] == ids[i + 1] && nows'[i] == nows[i + 1];
          assert bodies'[j] == bodies[j + 1] && ids'[j] == ids[j + 1] && nows'[j] == nows[j + 1];
        }
      }
      CreateEachAdds(t', bodies', ids', nows');
      assert PreparedAll(bodies, ids, nows) == [item] + PreparedAll(bodies', ids', nows');
    }
  }

  /**
   * After creating N items under distinct keys in an empty table, any listing
   * of the table holds exactly those N items.
   */
  lemma ListAfterCreates(bodies: seq<Item>, ids: seq<string>, nows: seq<string>, listing: seq<Item>)
    requires |ids| == |bodies| && |nows| == |bodies|
    requires DistinctKeys(bodies, ids, nows)
    requires IsListing(listing, CreateEach(map[], bodies, ids, nows))
    ensures |listing| == |bodies|
    ensures forall x :: x in listing <==> x in PreparedAll(bodies, ids, nows)
  {
    CreateEachAdds(map[], bodies, ids, nows);
    ListingContents(listing, CreateEach(map[], bodies, ids, nows));
  }
}
