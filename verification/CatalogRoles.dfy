/** A written catalog uses each offset as one kind of record. */
module CatalogRoles {
  import opened Wrappers
  import opened Bytes
  import opened StringSpec
  import opened RecordSpec
  import opened Objects
  import opened ResourceMap
  import opened Writer
  import opened MakeCatalog
  import opened CatalogKeys
  import opened RoundTrip

  ghost function TypeOffsets(plan: Plan): set<nat> {
    var s := plan.shared;
    {s.stringType.record, s.assetType.record, s.bundleType.record, s.providerType.record}
  }

  ghost function ArrayOffsets(plan: Plan): set<nat> {
    {plan.shared.dependencies, plan.keysOffset} + set a | a in plan.assets :: a.list
  }

  ghost function LocationOffsets(plan: Plan): set<nat> {
    {plan.shared.bundle} + set a | a in plan.assets :: a.location
  }

  ghost function RolesOf(plan: Plan): Roles {
    map o | o in TypeOffsets(plan) + ArrayOffsets(plan) + LocationOffsets(plan) ::
      if o in TypeOffsets(plan) then TypeRole else if o in ArrayOffsets(plan) then ArrayRole else LocationRole
  }

  ghost predicate Ordered(plan: Plan) {
    && plan.shared.stringType.record < plan.shared.assetType.record < plan.shared.bundleType.record
    && plan.shared.bundleType.record < plan.shared.providerType.record < plan.shared.bundle
    && plan.shared.bundle < plan.shared.dependencies < plan.keysOffset
    && (forall a | a in plan.assets :: plan.shared.dependencies < a.location < a.list < plan.keysOffset)
    && (forall i, j :: 0 <= i < j < |plan.assets| ==> plan.assets[i].list < plan.assets[j].location)
  }

  lemma PlanOrdered(d: seq<byte>, facts: Facts, labels: Labels, count: nat, version: nat, plan: Plan)
    requires Written(d, facts, labels, count, version, plan)
    ensures Ordered(plan)
  {
    hide AllLaidOut, ChainWritten, TypeWritten;
    forall a | a in plan.assets
      ensures plan.shared.dependencies < a.location < a.list
    {
      var i :| 0 <= i < |plan.assets| && plan.assets[i] == a;
      assert AssetWritten(facts, labels, plan.shared, FirstRecord(plan.links), i, plan.assets[i]);
    }
  }

  lemma LocationIsNoList(plan: Plan, i: nat, j: nat)
    requires Ordered(plan) && i < |plan.assets| && j < |plan.assets|
    ensures plan.assets[i].location != plan.assets[j].list
    ensures i != j ==> plan.assets[i].location != plan.assets[j].location
  {
    assert plan.assets[i] in plan.assets && plan.assets[j] in plan.assets;
  }

  lemma RolesAre(plan: Plan, o: nat)
    requires Ordered(plan)
    ensures o in TypeOffsets(plan) ==> HasRole(RolesOf(plan), o, TypeRole)
    ensures o in ArrayOffsets(plan) ==> HasRole(RolesOf(plan), o, ArrayRole)
    ensures o in LocationOffsets(plan) <==> HasRole(RolesOf(plan), o, LocationRole)
    ensures !HasRole(RolesOf(plan), o, BundleRole)
  {
    forall i, j | 0 <= i < |plan.assets| && 0 <= j < |plan.assets|
      ensures plan.assets[i].location != plan.assets[j].list
    {
      LocationIsNoList(plan, i, j);
    }
  }

  /** A string key and a list of one location are used as nothing else. */
  lemma KeyRoles(img: Image, roles: Roles, typeOffset: nat, payload: nat, key: nat, list: nat, location: nat)
    requires ReadU32s(img.data, key, 2) == Ok([typeOffset, payload]) && KindAt(img, typeOffset) == Ok(StringKind)
    requires ArrayAt(img, list) == Ok([location])
    requires HasRole(roles, typeOffset, TypeRole) && HasRole(roles, location, LocationRole)
    ensures PairDisciplined(img, roles, key, list)
  {
    hide KindAt, ArrayAt, HasRole;
  }

  /** So is a location with no data and with the given dependencies. */
  lemma LocationRoles(img: Image, roles: Roles, o: nat, words: seq<nat>, dependencies: seq<nat>)
    requires |words| == 7 && ReadU32s(img.data, o, 7) == Ok(words) && DepsAt(img, o) == Ok(dependencies)
    requires words[5] == NULL && HasRole(roles, words[6], TypeRole) && ArrayDisciplined(roles, words[3])
    requires forall d | d in dependencies :: HasRole(roles, d, LocationRole)
    ensures LocationDisciplined(img, roles, o) && DependenciesApart(img, roles, o)
  {
    hide DepsAt, HasRole;
  }

  lemma AssetLocationRoles(img: Image, labels: Labels, plan: Plan, i: nat)
    requires Ordered(plan) && Reads(img, labels, plan) && i < |plan.assets|
    ensures LocationDisciplined(img, RolesOf(plan), plan.assets[i].location)
    ensures DependenciesApart(img, RolesOf(plan), plan.assets[i].location)
  {
    hide FieldsAt, ObjectAt, ArrayAt, KindAt, DepsAt, RolesOf, Ordered, HasRole, LocationDisciplined,
      DependenciesApart, AsPath, PathOf, GuidText;
    var a, s := plan.assets[i], plan.shared;
    assert AssetReads(img, labels, s, i, a) && AssetPoints(img, s, a);
    RolesAre(plan, s.bundle);
    RolesAre(plan, s.dependencies);
    RolesAre(plan, s.assetType.record);
    LocationRoles(img, RolesOf(plan), a.location,
                  [AsPath(a.part), AsPath(a.part), s.provider, s.dependencies, 123, NULL, s.assetType.record],
                  [s.bundle]);
  }

  lemma AssetKeyRoles(img: Image, labels: Labels, plan: Plan, i: nat)
    requires Ordered(plan) && Reads(img, labels, plan) && i < |plan.assets|
    ensures PairDisciplined(img, RolesOf(plan), plan.assets[i].pathKey, plan.assets[i].list)
    ensures PairDisciplined(img, RolesOf(plan), plan.assets[i].guidKey, plan.assets[i].list)
    ensures HasRole(RolesOf(plan), plan.assets[i].list, ArrayRole)
  {
    hide FieldsAt, ObjectAt, ArrayAt, KindAt, DepsAt, RolesOf, Ordered, HasRole, PairDisciplined, AsPath, PathOf,
      GuidText;
    var a, s, roles := plan.assets[i], plan.shared, RolesOf(plan);
    assert AssetReads(img, labels, s, i, a) && AssetPoints(img, s, a);
    assert a in plan.assets;
    RolesAre(plan, a.location);
    RolesAre(plan, a.list);
    RolesAre(plan, s.stringType.record);
    KeyRoles(img, roles, s.stringType.record, a.pathPayload, a.pathKey, a.list, a.location);
    KeyRoles(img, roles, s.stringType.record, a.guidPayload, a.guidKey, a.list, a.location);
  }

  lemma RecordsDisciplined(img: Image, labels: Labels, plan: Plan)
    requires Ordered(plan) && Reads(img, labels, plan)
    ensures Disciplined(img, RolesOf(plan)) && ArraysApart(img, RolesOf(plan))
  {
    hide Ordered, Reads, RolesOf, LocationDisciplined, BundleDisciplined, DependenciesApart;
    var roles := RolesOf(plan);
    forall o: nat
      ensures HasRole(roles, o, LocationRole) ==> LocationDisciplined(img, roles, o) && DependenciesApart(img, roles, o)
      ensures !HasRole(roles, o, BundleRole)
    {
      RolesAre(plan, o);
      if o == plan.shared.bundle {
        BundleRoles(img, labels, plan);
      } else if o in LocationOffsets(plan) {
        var a :| a in plan.assets && a.location == o;
        var i :| 0 <= i < |plan.assets| && plan.assets[i] == a;
        AssetLocationRoles(img, labels, plan, i);
      }
    }
  }

  /** A written catalog uses each offset, arrays included, as one kind of record. */
  lemma CatalogDisciplined(img: Image, labels: Labels, plan: Plan)
    requires Ordered(plan) && Reads(img, labels, plan) && IndexWritten(plan.assets, plan.keys)
    ensures Disciplined(img, RolesOf(plan)) && IndexDisciplined(img, RolesOf(plan), plan.keysOffset)
    ensures IndexApart(img, RolesOf(plan), plan.keysOffset)
  {
    hide ArrayAt, RolesOf, Ordered, Disciplined, ArraysApart, PairDisciplined, BundleReads, AssetReads, AssetPoints,
      HasRole;
    RecordsDisciplined(img, labels, plan);
    RolesAre(plan, plan.keysOffset);
    var pairs := plan.keys;
    assert PairsAt(img, plan.keysOffset) == Ok(pairs);
    forall k | 0 <= k < |pairs| / 2
      ensures PairDisciplined(img, RolesOf(plan), pairs[2 * k], pairs[2 * k + 1])
      ensures ArrayDisciplined(RolesOf(plan), pairs[2 * k + 1])
    {
      KeyIndex(plan, k);
      AssetKeyRoles(img, labels, plan, k / 2);
    }
  }

  /** Pair k of the index: the path key of asset k / 2 if k is even, else its guid key. */
  lemma KeyIndex(plan: Plan, k: nat)
    requires IndexWritten(plan.assets, plan.keys) && k < |plan.keys| / 2
    ensures k / 2 < |plan.assets|
    ensures var a := plan.assets[k / 2];
            && plan.keys[2 * k] == (if k % 2 == 0 then a.pathKey else a.guidKey)
            && plan.keys[2 * k + 1] == a.list
  {
    var i := k / 2;
    assert k == 2 * i + k % 2;
    assert plan.keys[4 * i] == plan.assets[i].pathKey;
  }

  lemma BundleRoles(img: Image, labels: Labels, plan: Plan)
    requires Ordered(plan) && Reads(img, labels, plan)
    ensures LocationDisciplined(img, RolesOf(plan), plan.shared.bundle)
    ensures DependenciesApart(img, RolesOf(plan), plan.shared.bundle)
  {
    hide FieldsAt, ObjectAt, ArrayAt, KindAt, DepsAt, RolesOf, Ordered;
    RolesAre(plan, plan.shared.bundleType.record);
  }
}
