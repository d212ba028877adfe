/** The migration that spreads each variant's JSON attributes over three tables, and the one that
    gathers them again. */
module AttributeMigration {
  import opened Common

  type StoreId = nat
  type VariantId = nat
  type AttributeId = nat
  type ValueId = nat
  type Name = string
  type Value = string

  datatype Variant = Variant(id: VariantId, store: StoreId, attributes: map<Name, Value>)

  datatype Attribute = Attribute(store: StoreId, name: Name)
  datatype AttributeValue = AttributeValue(attribute: AttributeId, value: Value)

  /** A SHA-256 of a canonical text, taken as injective: of the sorted value identifiers, or of
      the attribute map with sorted keys. */
  datatype Signature = OfValues(ids: multiset<ValueId>) | OfJson(attributes: map<Name, Value>)

  /** `links` is the table that joins variants to values, by variant: a variant is linked to a
      value once at most. */
  datatype Db = Db(
    attributes: map<AttributeId, Attribute>,
    values: map<ValueId, AttributeValue>,
    links: map<VariantId, set<ValueId>>,
    signatures: map<VariantId, Signature>)

  // ---------- What the tables say ----------

  function LinkedIds(db: Db, variant: VariantId): set<ValueId> {
    if variant in db.links then db.links[variant] else {}
  }

  /** The value row belongs to an attribute of the store, and reads name and value. */
  predicate Reads(db: Db, id: ValueId, store: StoreId, name: Name, value: Value) {
    && id in db.values && db.values[id].value == value
    && db.values[id].attribute in db.attributes
    && db.attributes[db.values[id].attribute] == Attribute(store, name)
  }

  /** Nothing is stored twice. */
  ghost predicate Distinct(db: Db) {
    && (forall a, b | a in db.attributes && b in db.attributes && db.attributes[a] == db.attributes[b] :: a == b)
    && (forall a, b | a in db.values && b in db.values && db.values[a] == db.values[b] :: a == b)
  }

  /** The variant is linked to exactly the values `at` names, and they read its attributes. */
  ghost predicate NormalizedBy(db: Db, variant: VariantId, store: StoreId, attributes: map<Name, Value>,
                               at: map<Name, ValueId>) {
    && at.Keys == attributes.Keys
    && LinkedIds(db, variant) == at.Values
    && forall name | name in at :: Reads(db, at[name], store, name, attributes[name])
  }

  /** The variant's links read exactly its attributes. */
  ghost predicate Normalized(db: Db, variant: VariantId, store: StoreId, attributes: map<Name, Value>) {
    exists at :: NormalizedBy(db, variant, store, attributes, at)
  }

  lemma ReadsOne(db: Db, a: ValueId, b: ValueId, store: StoreId, name: Name, value: Value)
    requires Distinct(db) && Reads(db, a, store, name, value) && Reads(db, b, store, name, value)
    ensures a == b
  {
  }

  /** Within a store, variants get equal new signatures exactly if their attributes are equal;
      across stores, exactly if both have none. */
  lemma SignaturesTellAttributesApart(db: Db, v: Variant, w: Variant)
    requires Distinct(db)
    requires Normalized(db, v.id, v.store, v.attributes) && Normalized(db, w.id, w.store, w.attributes)
    ensures OfValues(multiset(LinkedIds(db, v.id))) == OfValues(multiset(LinkedIds(db, w.id))) <==>
      v.attributes == w.attributes && (v.store == w.store || v.attributes == map[])
  {
    var atV :| NormalizedBy(db, v.id, v.store, v.attributes, atV);
    var atW :| NormalizedBy(db, w.id, w.store, w.attributes, atW);
    var a, b := LinkedIds(db, v.id), LinkedIds(db, w.id);
    SetFromMultiset(a, b);
    if a == b {
      SameLinksSameAttributes(db, v, w, atV, atW);
    }
    if v.attributes == w.attributes && (v.store == w.store || v.attributes == map[]) {
      SameAttributesSameLinks(db, v, w, atV, atW);
    }
  }

  lemma SetFromMultiset(a: set<ValueId>, b: set<ValueId>)
    ensures multiset(a) == multiset(b) <==> a == b
  {
    if multiset(a) == multiset(b) {
      forall x ensures x in a <==> x in b { assert x in multiset(a) <==> x in multiset(b); }
    }
  }

  lemma SharedLinkSharedAttribute(db: Db, v: Variant, w: Variant, atV: map<Name, ValueId>, atW: map<Name, ValueId>,
                                  name: Name)
    requires LinkedIds(db, v.id) == LinkedIds(db, w.id) && name in v.attributes
    requires NormalizedBy(db, v.id, v.store, v.attributes, atV) && NormalizedBy(db, w.id, w.store, w.attributes, atW)
    ensures name in w.attributes && w.attributes[name] == v.attributes[name] && v.store == w.store
  {
    assert atV[name] in atV.Values;
    var other :| other in atW && atW[other] == atV[name];
    assert Reads(db, atV[name], v.store, name, v.attributes[name]);
    assert Reads(db, atV[name], w.store, other, w.attributes[other]);
  }

  lemma SameLinksSameAttributes(db: Db, v: Variant, w: Variant, atV: map<Name, ValueId>, atW: map<Name, ValueId>)
    requires LinkedIds(db, v.id) == LinkedIds(db, w.id)
    requires NormalizedBy(db, v.id, v.store, v.attributes, atV) && NormalizedBy(db, w.id, w.store, w.attributes, atW)
    ensures v.attributes == w.attributes && (v.store == w.store || v.attributes == map[])
  {
    forall name | name in v.attributes
      ensures name in w.attributes && w.attributes[name] == v.attributes[name] && v.store == w.store
    {
      SharedLinkSharedAttribute(db, v, w, atV, atW, name);
    }
    forall name | name in w.attributes ensures name in v.attributes {
      SharedLinkSharedAttribute(db, w, v, atW, atV, name);
    }
    if v.attributes != map[] {
      var name :| name in v.attributes;
    }
  }

  lemma SameAttributesSameLinks(db: Db, v: Variant, w: Variant, atV: map<Name, ValueId>, atW: map<Name, ValueId>)
    requires Distinct(db) && v.attributes == w.attributes && (v.store == w.store || v.attributes == map[])
    requires NormalizedBy(db, v.id, v.store, v.attributes, atV) && NormalizedBy(db, w.id, w.store, w.attributes, atW)
    ensures LinkedIds(db, v.id) == LinkedIds(db, w.id)
  {
    forall name | name in atV ensures atV[name] == atW[name] {
      ReadsOne(db, atV[name], atW[name], v.store, name, v.attributes[name]);
    }
    assert atV == atW;
  }

  // ---------- Gathering the attributes again ----------

  /** The joined rows of a variant. */
  function Rows(db: Db, variant: VariantId): set<(Name, Value)> {
    set id | id in LinkedIds(db, variant) && id in db.values && db.values[id].attribute in db.attributes
      :: (db.attributes[db.values[id].attribute].name, db.values[id].value)
  }

  /** A dictionary filled from the rows under folded names, in an order left open. */
  ghost predicate Gathered(fold: Name -> Name, rows: set<(Name, Value)>, result: map<Name, Value>) {
    && (forall row | row in rows :: fold(row.0) in result)
    && (forall key | key in result :: exists row :: row in rows && fold(row.0) == key && result[key] == row.1)
  }

  lemma RowsAreTheAttributes(db: Db, v: Variant)
    requires Normalized(db, v.id, v.store, v.attributes)
    ensures Rows(db, v.id) == set name | name in v.attributes :: (name, v.attributes[name])
  {
    var at :| NormalizedBy(db, v.id, v.store, v.attributes, at);
    var attributes := set name | name in v.attributes :: (name, v.attributes[name]);
    forall row | row in Rows(db, v.id) ensures row in attributes {
      RowIsAnAttribute(db, v, at, row);
    }
    forall row | row in attributes ensures row in Rows(db, v.id) {
      AttributeIsARow(db, v, at, row.0);
    }
  }

  lemma RowIsAnAttribute(db: Db, v: Variant, at: map<Name, ValueId>, row: (Name, Value))
    requires NormalizedBy(db, v.id, v.store, v.attributes, at) && row in Rows(db, v.id)
    ensures row.0 in v.attributes && v.attributes[row.0] == row.1
  {
    var id :| id in LinkedIds(db, v.id) && id in db.values && db.values[id].attribute in db.attributes
      && row == (db.attributes[db.values[id].attribute].name, db.values[id].value);
    assert id in at.Values;
    var name :| name in at && at[name] == id;
    assert Reads(db, id, v.store, name, v.attributes[name]);
  }

  lemma AttributeIsARow(db: Db, v: Variant, at: map<Name, ValueId>, name: Name)
    requires NormalizedBy(db, v.id, v.store, v.attributes, at) && name in v.attributes
    ensures (name, v.attributes[name]) in Rows(db, v.id)
  {
    assert at[name] in at.Values;
    assert Reads(db, at[name], v.store, name, v.attributes[name]);
  }

  /** Folding twice is folding once. */
  ghost predicate Folds(fold: Name -> Name) {
    forall name {:trigger fold(fold(name))} :: fold(fold(name)) == fold(name)
  }

  ghost predicate AllFolded(fold: Name -> Name, attributes: map<Name, Value>) {
    forall name | name in attributes :: fold(name) == name
  }

  /** Restoring after backfilling gives a variant its original attributes back exactly if all its
      attribute names were folded to begin with. */
  lemma {:induction false} RoundTripExactlyIfFolded(db: Db, v: Variant, fold: Name -> Name, result: map<Name, Value>)
    requires Normalized(db, v.id, v.store, v.attributes)
    requires Gathered(fold, Rows(db, v.id), result)
    requires Folds(fold)
    ensures result == v.attributes <==> AllFolded(fold, v.attributes)
  {
    RowsAreTheAttributes(db, v);
    GatheredExactlyIfFolded(v.attributes, fold, result);
  }

  lemma GatheredExactlyIfFolded(attributes: map<Name, Value>, fold: Name -> Name, result: map<Name, Value>)
    requires Gathered(fold, set name | name in attributes :: (name, attributes[name]), result)
    requires Folds(fold)
    ensures result == attributes <==> AllFolded(fold, attributes)
  {
    var rows := set name | name in attributes :: (name, attributes[name]);
    forall key | key in result
      ensures exists name :: name in attributes && fold(name) == key && result[key] == attributes[name]
    {
      var row :| row in rows && fold(row.0) == key && result[key] == row.1;
      assert row.0 in attributes;
    }
    forall name | name in attributes ensures fold(name) in result {
      assert (name, attributes[name]) in rows;
    }
    if AllFolded(fold, attributes) {
      assert result.Keys == attributes.Keys;
    }
  }

  /** A variant with the one attribute "Size" comes back with "size" instead. */
  lemma UnfoldedNameIsLost(db: Db, id: VariantId, store: StoreId, value: Value, fold: Name -> Name,
                           result: map<Name, Value>)
    requires fold("Size") == "size" && Folds(fold)
    requires Normalized(db, id, store, map["Size" := value]) && Gathered(fold, Rows(db, id), result)
    ensures result == map["size" := value] && result != map["Size" := value]
  {
    var attributes := map["Size" := value];
    RowsAreTheAttributes(db, Variant(id, store, attributes));
    OneRow(attributes, "Size", value);
    GatheredFromOneRow(fold, "Size", value, result);
    assert "Size"[0] == 'S' && "size"[0] == 's';
    assert "Size" in attributes && "Size" !in map["size" := value];
  }

  lemma OneRow(attributes: map<Name, Value>, name: Name, value: Value)
    requires attributes == map[name := value]
    ensures (set n | n in attributes :: (n, attributes[n])) == {(name, value)}
  {
    assert name in attributes && attributes[name] == value;
  }

  lemma GatheredFromOneRow(fold: Name -> Name, name: Name, value: Value, result: map<Name, Value>)
    requires Gathered(fold, {(name, value)}, result)
    ensures result == map[fold(name) := value]
  {
    assert (name, value) in {(name, value)};
  }

  // ---------- Growing tables ----------

  /** Rows are only added. */
  ghost predicate Grown(was: Db, now: Db) {
    && (forall a | a in was.attributes :: a in now.attributes && now.attributes[a] == was.attributes[a])
    && (forall v | v in was.values :: v in now.values && now.values[v] == was.values[v])
  }

  /** The row was there and nothing changed, or it was not and was added, alone. */
  ghost predicate AtMostAdded<K, V>(was: map<K, V>, now: map<K, V>, id: K, row: V) {
    if row in was.Values then now == was && id in was && was[id] == row
    else id !in was && now == was[id := row]
  }

  lemma GrowthKeeps(was: Db, now: Db, variant: VariantId, store: StoreId, attributes: map<Name, Value>,
                    at: map<Name, ValueId>)
    requires Grown(was, now) && LinkedIds(now, variant) == LinkedIds(was, variant)
    requires NormalizedBy(was, variant, store, attributes, at)
    ensures NormalizedBy(now, variant, store, attributes, at)
  {
    forall name | name in at ensures Reads(now, at[name], store, name, attributes[name]) {
      assert Reads(was, at[name], store, name, attributes[name]);
    }
  }

  /** Linking one more value for a new name extends what the variant's links read. */
  lemma OneMoreName(was: Db, now: Db, variant: VariantId, store: StoreId, done: map<Name, Value>,
                    at: map<Name, ValueId>,
                    name: Name, value: Value, id: ValueId)
    requires Grown(was, now) && NormalizedBy(was, variant, store, done, at) && name !in done
    requires Reads(now, id, store, name, value)
    requires LinkedIds(now, variant) == LinkedIds(was, variant) + {id}
    ensures NormalizedBy(now, variant, store, done[name := value], at[name := id])
    ensures id !in LinkedIds(was, variant)
  {
    var at', done' := at[name := id], done[name := value];
    forall n | n in at' ensures Reads(now, at'[n], store, n, done'[n]) {
      if n != name { assert Reads(was, at[n], store, n, done[n]); }
    }
    forall x ensures x in at'.Values <==> x in at.Values || x == id {
      if x == id { assert at'[name] == id; }
      if x in at.Values {
        var n :| n in at && at[n] == x;
        assert at'[n] == x;
      }
    }
    forall n | n in at ensures at[n] != id {
      assert Reads(was, at[n], store, n, done[n]);
    }
  }

  // ---------- The migration ----------

  /** The dictionaries list exactly the rows inserted so far. */
  ghost predicate Indexed(attributes: map<AttributeId, Attribute>, attributeIds: map<(StoreId, Name), AttributeId>,
                          values: map<ValueId, AttributeValue>, valueIds: map<(AttributeId, Value), ValueId>,
                          nextId: nat)
  {
    && (forall key | key in attributeIds ::
          attributeIds[key] in attributes && attributes[attributeIds[key]] == Attribute(key.0, key.1))
    && (forall a | a in attributes ::
          var key := (attributes[a].store, attributes[a].name);
          a < nextId && key in attributeIds && attributeIds[key] == a)
    && (forall key | key in valueIds ::
          valueIds[key] in values && values[valueIds[key]] == AttributeValue(key.0, key.1))
    && (forall v | v in values ::
          var key := (values[v].attribute, values[v].value);
          v < nextId && key in valueIds && valueIds[key] == v)
  }

  /** The variant has been carried over: its links and its signature. */
  ghost predicate Backfilled(db: Db, v: Variant, at: map<Name, ValueId>) {
    && NormalizedBy(db, v.id, v.store, v.attributes, at)
    && v.id in db.signatures && db.signatures[v.id] == OfValues(multiset(LinkedIds(db, v.id)))
  }

  lemma StaysBackfilled(was: Db, now: Db, v: Variant, at: map<Name, ValueId>)
    requires Grown(was, now) && Backfilled(was, v, at)
    requires LinkedIds(now, v.id) == LinkedIds(was, v.id)
    requires v.id in now.signatures && now.signatures[v.id] == was.signatures[v.id]
    ensures Backfilled(now, v, at)
  {
    GrowthKeeps(was, now, v.id, v.store, v.attributes, at);
  }

  /** The attributes of the variant whose names have been dealt with. */
  function Done(v: Variant, todo: set<Name>): map<Name, Value> {
    map name | name in v.attributes && name !in todo :: v.attributes[name]
  }

  /** Half-way through a variant: the names not in `todo` are linked, and nothing else changed. */
  ghost predicate Linking(was: Db, db: Db, v: Variant, todo: set<Name>, valueList: seq<ValueId>,
                          at: map<Name, ValueId>) {
    && Grown(was, db) && db.signatures == was.signatures
    && v.id in db.links && db.links == was.links[v.id := db.links[v.id]]
    && todo <= v.attributes.Keys && NormalizedBy(db, v.id, v.store, Done(v, todo), at)
    && multiset(valueList) == multiset(db.links[v.id])
  }

  lemma LinkingStarts(was: Db, v: Variant)
    requires v.id !in was.links
    ensures Linking(was, was.(links := was.links[v.id := {}]), v, v.attributes.Keys, [], map[])
  {
    assert Done(v, v.attributes.Keys) == map[];
  }

  lemma LinkingEnds(was: Db, linked: Db, db: Db, v: Variant, valueList: seq<ValueId>, at: map<Name, ValueId>)
    requires Linking(was, linked, v, {}, valueList, at)
    requires db == linked.(signatures := linked.signatures[v.id := OfValues(multiset(valueList))])
    ensures Grown(was, db) && Backfilled(db, v, at)
    ensures db.links == was.links[v.id := LinkedIds(db, v.id)]
    ensures db.signatures == was.signatures[v.id := OfValues(multiset(LinkedIds(db, v.id)))]
  {
    assert Done(v, {}) == v.attributes;
    GrowthKeeps(linked, db, v.id, v.store, v.attributes, at);
  }

  lemma LinkingGoesOn(was: Db, before: Db, db: Db, v: Variant, todo: set<Name>, valueList: seq<ValueId>,
                      at: map<Name, ValueId>,
                      name: Name, id: ValueId)
    requires Linking(was, before, v, todo, valueList, at) && name in todo
    requires Grown(before, db) && db.signatures == before.signatures
    requires db.links == before.links[v.id := before.links[v.id] + {id}]
    requires Reads(db, id, v.store, name, v.attributes[name])
    ensures Linking(was, db, v, todo - {name}, valueList + [id], at[name := id])
  {
    OneMoreName(before, db, v.id, v.store, Done(v, todo), at, name, v.attributes[name], id);
    assert Done(v, todo - {name}) == Done(v, todo)[name := v.attributes[name]];
    OneMoreListed(valueList, before.links[v.id], id);
    GrowthIsTransitive(was, before, db);
  }

  lemma OneMoreListed(listed: seq<ValueId>, linked: set<ValueId>, id: ValueId)
    requires multiset(listed) == multiset(linked) && id !in linked
    ensures multiset(listed + [id]) == multiset(linked + {id})
  {
    assert multiset(linked + {id}) == multiset(linked) + multiset{id};
  }

  lemma GrowthIsTransitive(a: Db, b: Db, c: Db)
    requires Grown(a, b) && Grown(b, c)
    ensures Grown(a, c)
  {
  }

  /** The first so many variants have been carried over, and only they have links. */
  ghost predicate BackfilledTo(db: Db, variants: seq<Variant>, i: nat, ats: seq<map<Name, ValueId>>)
    requires i <= |variants|
  {
    && |ats| == i
    && (forall id | id in db.links :: OneOf(variants[..i], id))
    && (forall j | 0 <= j < i :: Backfilled(db, variants[j], ats[j]))
  }

  ghost predicate OneOf(variants: seq<Variant>, id: VariantId) {
    exists v :: v in variants && v.id == id
  }

  lemma OneOfMore(variants: seq<Variant>, i: nat, id: VariantId)
    requires i < |variants| && (OneOf(variants[..i], id) || id == variants[i].id)
    ensures OneOf(variants[..i + 1], id)
  {
    if id == variants[i].id {
      assert variants[i] in variants[..i + 1];
    } else {
      var v :| v in variants[..i] && v.id == id;
      assert v in variants[..i + 1];
    }
  }

  /** Carrying over one variant leaves the others as they are. */
  lemma AnotherVariant(was: Db, db: Db, v: Variant, at: map<Name, ValueId>, other: VariantId, linked: set<ValueId>,
                       signature: Signature)
    requires Grown(was, db) && Backfilled(was, v, at) && v.id != other
    requires db.links == was.links[other := linked] && db.signatures == was.signatures[other := signature]
    ensures Backfilled(db, v, at)
  {
    StaysBackfilled(was, db, v, at);
  }

  lemma OneMoreVariant(was: Db, db: Db, variants: seq<Variant>, i: nat, ats: seq<map<Name, ValueId>>,
                       at: map<Name, ValueId>,
                       linked: set<ValueId>, signature: Signature)
    requires i < |variants| && BackfilledTo(was, variants, i, ats)
    requires forall j | 0 <= j < i :: variants[j].id != variants[i].id
    requires Grown(was, db) && Backfilled(db, variants[i], at)
    requires db.links == was.links[variants[i].id := linked]
    requires db.signatures == was.signatures[variants[i].id := signature]
    ensures BackfilledTo(db, variants, i + 1, ats + [at])
  {
    forall id | id in db.links ensures OneOf(variants[..i + 1], id) {
      OneOfMore(variants, i, id);
    }
    forall j | 0 <= j < i ensures Backfilled(db, variants[j], ats[j]) {
      AnotherVariant(was, db, variants[j], ats[j], variants[i].id, linked, signature);
    }
  }

  lemma OnlyEarlierAreLinked(db: Db, variants: seq<Variant>, i: nat, ats: seq<map<Name, ValueId>>)
    requires i < |variants| && BackfilledTo(db, variants, i, ats)
    requires forall j, k | 0 <= j < k < |variants| :: variants[j].id != variants[k].id
    ensures variants[i].id !in db.links
  {
  }

  class Migration {
    var db: Db
    var attributeIds: map<(StoreId, Name), AttributeId>
    var valueIds: map<(AttributeId, Value), ValueId>
    /** Identifiers are time-ordered: each new one is larger than all before. */
    var nextId: nat

    ghost predicate Valid()
      reads this
    {
      Indexed(db.attributes, attributeIds, db.values, valueIds, nextId)
    }

    lemma ValidIsDistinct()
      requires Valid()
      ensures Distinct(db)
    {
    }

    constructor ()
      ensures Valid() && db == Db(map[], map[], map[], map[])
    {
      db := Db(map[], map[], map[], map[]);
      attributeIds, valueIds, nextId := map[], map[], 0;
    }

    method FindOrAddAttribute(store: StoreId, name: Name) returns (id: AttributeId)
      requires Valid()
      modifies this
      ensures Valid() && id in db.attributes && db.attributes[id] == Attribute(store, name)
      ensures db == old(db).(attributes := db.attributes)
      ensures AtMostAdded(old(db).attributes, db.attributes, id, Attribute(store, name))
    {
      var key := (store, name);
      if key in attributeIds { return attributeIds[key]; }
      id, nextId := nextId, nextId + 1;
      attributeIds := attributeIds[key := id];
      db := db.(attributes := db.attributes[id := Attribute(store, name)]);
    }

    method FindOrAddValue(attribute: AttributeId, value: Value) returns (id: ValueId)
      requires Valid() && attribute in db.attributes
      modifies this
      ensures Valid() && id in db.values && db.values[id] == AttributeValue(attribute, value)
      ensures db == old(db).(values := db.values)
      ensures AtMostAdded(old(db).values, db.values, id, AttributeValue(attribute, value))
    {
      var key := (attribute, value);
      if key in valueIds { return valueIds[key]; }
      id, nextId := nextId, nextId + 1;
      valueIds := valueIds[key := id];
      db := db.(values := db.values[id := AttributeValue(attribute, value)]);
    }

    /** The value row for one name and value, with its attribute row: found, or added. */
    method FindOrAdd(store: StoreId, name: Name, value: Value) returns (id: ValueId)
      requires Valid()
      modifies this
      ensures Valid() && Reads(db, id, store, name, value)
      ensures db.links == old(db.links) && db.signatures == old(db.signatures) && Grown(old(db), db)
    {
      var attributeId := FindOrAddAttribute(store, name);
      id := FindOrAddValue(attributeId, value);
    }

    /** One variant: each of its names in turn found or added and linked, and then the signature. */
    method BackfillOne(v: Variant) returns (ghost at: map<Name, ValueId>)
      requires Valid() && v.id !in db.links
      modifies this
      ensures Valid() && Grown(old(db), db) && Backfilled(db, v, at)
      ensures db.links == old(db).links[v.id := LinkedIds(db, v.id)]
      ensures db.signatures == old(db).signatures[v.id := OfValues(multiset(LinkedIds(db, v.id)))]
    {
      ghost var was := db;
      var todo := v.attributes.Keys;
      var valueList: seq<ValueId> := [];
      at := map[];
      LinkingStarts(db, v);
      db := db.(links := db.links[v.id := {}]);
      while todo != {}
        invariant Valid() && Linking(was, db, v, todo, valueList, at)
        decreases todo
      {
        var name :| name in todo;
        ghost var before := db;
        var id := FindOrAdd(v.store, name, v.attributes[name]);
        db := db.(links := db.links[v.id := db.links[v.id] + {id}]);
        LinkingGoesOn(was, before, db, v, todo, valueList, at, name, id);
        valueList, at, todo := valueList + [id], at[name := id], todo - {name};
      }
      ghost var linked := db;
      db := db.(signatures := db.signatures[v.id := OfValues(multiset(valueList))]);
      LinkingEnds(was, linked, db, v, valueList, at);
    }

    method Backfill(variants: seq<Variant>)
      requires Valid() && db.links == map[]
      requires forall i, j | 0 <= i < j < |variants| :: variants[i].id != variants[j].id
      modifies this
      ensures Valid() && Distinct(db)
      ensures forall v | v in variants ::
        && Normalized(db, v.id, v.store, v.attributes)
        && v.id in db.signatures && db.signatures[v.id] == OfValues(multiset(LinkedIds(db, v.id)))
    {
      ghost var ats: seq<map<Name, ValueId>> := [];
      for i := 0 to |variants|
        invariant Valid() && BackfilledTo(db, variants, i, ats)
      {
        ghost var before := db;
        OnlyEarlierAreLinked(db, variants, i, ats);
        ghost var at := BackfillOne(variants[i]);
        OneMoreVariant(before, db, variants, i, ats, at, LinkedIds(db, variants[i].id), db.signatures[variants[i].id]);
        ats := ats + [at];
      }
      ValidIsDistinct();
      forall v | v in variants ensures exists at :: Backfilled(db, v, at) {
        var j :| 0 <= j < |variants| && variants[j] == v;
        assert Backfilled(db, v, ats[j]);
      }
    }

    /** The dictionary of a variant's rows under folded names; a later row overwrites. */
    method Gather(fold: Name -> Name, variant: VariantId) returns (result: map<Name, Value>)
      ensures Gathered(fold, Rows(db, variant), result)
    {
      var rows := Rows(db, variant);
      var todo := rows;
      result := map[];
      while todo != {}
        invariant todo <= rows
        invariant Gathered(fold, rows - todo, result)
        decreases todo
      {
        var row :| row in todo;
        GatherOneMore(fold, rows - todo, result, row);
        result := result[fold(row.0) := row.1];
        assert rows - (todo - {row}) == (rows - todo) + {row};
        todo := todo - {row};
      }
      assert rows - todo == rows;
    }

    method Restore(fold: Name -> Name, ids: seq<VariantId>) returns (attributes: map<VariantId, map<Name, Value>>)
      modifies this`db
      ensures db == old(db).(signatures := db.signatures)
      ensures forall id | id in ids ::
        && id in attributes && Gathered(fold, Rows(old(db), id), attributes[id])
        && id in db.signatures && db.signatures[id] == OfJson(attributes[id])
    {
      attributes := map[];
      for i := 0 to |ids|
        invariant db == old(db).(signatures := db.signatures)
        invariant forall id | id in ids[..i] ::
          && id in attributes && Gathered(fold, Rows(old(db), id), attributes[id])
          && id in db.signatures && db.signatures[id] == OfJson(attributes[id])
      {
        var result := Gather(fold, ids[i]);
        assert Rows(db, ids[i]) == Rows(old(db), ids[i]);
        attributes := attributes[ids[i] := result];
        db := db.(signatures := db.signatures[ids[i] := OfJson(result)]);
        assert ids[..i + 1] == ids[..i] + [ids[i]];
      }
    }

    /** There and back again, with nothing in between. */
    method UpgradeAndDowngrade(fold: Name -> Name, variants: seq<Variant>)
      returns (restored: map<VariantId, map<Name, Value>>)
      requires Valid() && db.links == map[]
      requires forall i, j | 0 <= i < j < |variants| :: variants[i].id != variants[j].id
      requires Folds(fold)
      modifies this
      ensures forall v | v in variants ::
        && v.id in restored
        && (restored[v.id] == v.attributes <==> AllFolded(fold, v.attributes))
        && v.id in db.signatures && db.signatures[v.id] == OfJson(restored[v.id])
    {
      Backfill(variants);
      var ids := seq(|variants|, i requires 0 <= i < |variants| => variants[i].id);
      ghost var filled := db;
      restored := Restore(fold, ids);
      forall v | v in variants
        ensures v.id in ids && v.id in restored && (restored[v.id] == v.attributes <==> AllFolded(fold, v.attributes))
      {
        var i :| 0 <= i < |variants| && variants[i] == v;
        assert ids[i] == v.id;
        RoundTripExactlyIfFolded(filled, v, fold, restored[v.id]);
      }
    }
  }

  lemma GatherOneMore(fold: Name -> Name, rows: set<(Name, Value)>, result: map<Name, Value>, row: (Name, Value))
    requires Gathered(fold, rows, result)
    ensures Gathered(fold, rows + {row}, result[fold(row.0) := row.1])
  {
    var result' := result[fold(row.0) := row.1];
    forall key | key in result' ensures exists r :: r in rows + {row} && fold(r.0) == key && result'[key] == r.1 {
      if key != fold(row.0) {
        var r :| r in rows && fold(r.0) == key && result[key] == r.1;
        assert r in rows + {row};
      } else {
        assert row in rows + {row};
      }
    }
  }
}
