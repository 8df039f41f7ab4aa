/**
 * Fixed assets and operational expenses (assets.service.js), including the depreciation
 * that an expense of category DEPRECIATION books against an asset.
 */
module Assets {
  import opened Wrappers
  import opened Sums
  import opened Db

  predicate IsActiveAsset(a: Asset) { a.status == "ACTIVE" }
  function CurrentValue(a: Asset): real { a.currentValue }

  /** `getFixedAssets()`: every ACTIVE asset, newest first. */
  function GetFixedAssets(assets: seq<Asset>): (r: seq<Asset>)
    ensures |r| == CountWhere(assets, IsActiveAsset)
    ensures forall a | a in r :: a in assets && a.status == "ACTIVE"
    ensures forall a | a in assets && a.status == "ACTIVE" :: a in r
    ensures |r| > 0 ==> exists i :: LastWhere(assets, IsActiveAsset) == Some(i) && r[0] == assets[i]
    ensures var active := Filter(assets, IsActiveAsset);
      |r| == |active| && forall k :: 0 <= k < |r| ==> r[k] == active[|active| - 1 - k]
  {
    NewestFirst(assets, IsActiveAsset, |assets|)
  }

  /** The row addFixedAsset inserts: bought and currently worth the given value. */
  function NewAsset(assets: seq<Asset>, userId: nat, name: string, kind: Option<string>, value: real,
                    location: Option<string>, description: Option<string>): (a: Asset)
    ensures a.purchaseValue == value && a.currentValue == value
    ensures a.status == "ACTIVE" && a.createdBy == userId && a.name == name
    ensures forall i :: 0 <= i < |assets| ==> assets[i].id != a.id
  {
    Asset(MaxId(assets, AssetKey) + 1, name, kind, value, value, location, description, userId, "ACTIVE")
  }

  /** `addFixedAsset(userId, data)`. */
  method AddFixedAsset(db: Database, userId: nat, name: string, kind: Option<string>, value: real,
                       location: Option<string>, description: Option<string>)
    modifies db`assets
    ensures db.assets == old(db.assets) + [NewAsset(old(db.assets), userId, name, kind, value, location, description)]
  {
    db.assets := db.assets + [NewAsset(db.assets, userId, name, kind, value, location, description)];
  }

  /** A new asset adds its value to the active fixed-asset total and heads the asset list. */
  lemma AddFixedAssetEffect(assets: seq<Asset>, userId: nat, name: string, kind: Option<string>, value: real,
                            location: Option<string>, description: Option<string>)
    ensures var a := NewAsset(assets, userId, name, kind, value, location, description);
      && SumWhere(assets + [a], IsActiveAsset, CurrentValue) == SumWhere(assets, IsActiveAsset, CurrentValue) + value
      && GetFixedAssets(assets + [a])[0] == a
  {
    var a := NewAsset(assets, userId, name, kind, value, location, description);
    SumWhereSnoc(assets, a, IsActiveAsset, CurrentValue);
    assert (assets + [a])[|assets|] == a;
  }

  function AssetIdIs(id: nat): Asset -> bool { (a: Asset) => a.id == id }
  function WithCurrentValue(v: real): Asset -> Asset { (a: Asset) => a.(currentValue := v) }
  function LessValue(amount: real): Asset -> Asset { (a: Asset) => a.(currentValue := a.currentValue - amount) }

  /** `revalueAsset(userId, id, newValue, notes)`: the notes are not stored. */
  method RevalueAsset(db: Database, id: nat, newValue: real)
    modifies db`assets
    ensures db.assets == UpdateWhere(old(db.assets), AssetIdIs(id), WithCurrentValue(newValue))
  {
    db.assets := UpdateWhere(db.assets, AssetIdIs(id), WithCurrentValue(newValue));
  }

  /** Revaluing sets only that asset's current value; its purchase value and every other asset stay. */
  lemma RevalueAssetEffect(assets: seq<Asset>, id: nat, newValue: real)
    ensures var a' := UpdateWhere(assets, AssetIdIs(id), WithCurrentValue(newValue));
      && |a'| == |assets|
      && (forall i :: 0 <= i < |assets| ==> a'[i].(currentValue := assets[i].currentValue) == assets[i])
      && (forall i :: 0 <= i < |assets| ==> a'[i].currentValue == if assets[i].id == id then newValue else assets[i].currentValue)
  {
  }

  /** Does the expense depreciate an asset? `category === 'DEPRECIATION' && assetId`; an id of 0 is falsy. */
  function DepreciatedAsset(category: Option<string>, assetId: Option<nat>): (t: Option<nat>)
    ensures t.Some? <==> category == Some("DEPRECIATION") && assetId.Some? && assetId.value != 0
    ensures t.Some? ==> t == assetId
  {
    if category == Some("DEPRECIATION") && assetId.Some? && assetId.value != 0 then assetId else None
  }

  /** `addExpense(userId, data)`: the expense row is always written. */
  method AddExpense(db: Database, userId: nat, title: string, category: Option<string>, amount: real,
                    description: Option<string>, receiptRef: Option<string>, assetId: Option<nat>, now: int)
    modifies db`expenses, db`assets
    ensures db.expenses == old(db.expenses) + [Expense(title, category, amount, description, receiptRef, userId, now)]
    ensures db.assets == match DepreciatedAsset(category, assetId)
                         case None => old(db.assets)
                         case Some(id) => UpdateWhere(old(db.assets), AssetIdIs(id), LessValue(amount))
  {
    db.expenses := db.expenses + [Expense(title, category, amount, description, receiptRef, userId, now)];
    var target := DepreciatedAsset(category, assetId);
    if target.Some? {
      db.assets := UpdateWhere(db.assets, AssetIdIs(target.value), LessValue(amount));
    }
  }

  function ActiveWithId(id: nat): Asset -> bool { (a: Asset) => a.status == "ACTIVE" && a.id == id }

  /** Depreciation lowers the active fixed-asset total by the amount once for each active row
      carrying that id (with unique ids: once if the asset is active, not at all otherwise),
      with no floor at zero. */
  lemma DepreciationLowersTotal(assets: seq<Asset>, id: nat, amount: real)
    ensures SumWhere(UpdateWhere(assets, AssetIdIs(id), LessValue(amount)), IsActiveAsset, CurrentValue)
         == SumWhere(assets, IsActiveAsset, CurrentValue) - amount * (CountWhere(assets, ActiveWithId(id)) as real)
  {
    var a' := UpdateWhere(assets, AssetIdIs(id), LessValue(amount));
    SumWhereShift(assets, a', IsActiveAsset, CurrentValue, ActiveWithId(id), amount);
  }
}
