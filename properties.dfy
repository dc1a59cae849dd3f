/**
 What one ingestion of a seller's feed guarantees about the store, and what a
 second ingestion of the same feed does.
 */
module CatalogProperties {
  import opened Tables
  import opened Feed
  import opened Reconcile
  import opened Steps

  /** `shopId` is the key of the shop owned by `user`. */
  ghost predicate Owns(db: Db, user: nat, shopId: nat)
  {
    exists i :: 0 <= i < |db.shops| && db.shops[i].userId == user && db.shops[i].id == shopId
  }

  /** Only the shop upsert touches the shop table. */
  lemma ReconciledShops(db: Db, user: nat, feed: Feed)
    ensures Reconciled(db, user, feed).shops == UpsertShop(db, user, feed.shop).db.shops
  {
    var u := UpsertShop(db, user, feed.shop);
    var linked := AddCategories(u.db, u.id, feed.categories);
    assert linked.shops == u.db.shops;
  }

  /** The user's shop after ingestion is the one the shop upsert found or created. */
  lemma OwnedShopIsUpserted(db: Db, user: nat, feed: Feed, shopId: nat)
    requires Valid(db) && Owns(Reconciled(db, user, feed), user, shopId)
    ensures shopId == UpsertShop(db, user, feed.shop).id
  {
    var r := Reconciled(db, user, feed);
    var u := UpsertShop(db, user, feed.shop);
    UpsertShopValid(db, user, feed.shop);
    UpsertShopOwns(db, user, feed.shop);
    ReconciledShops(db, user, feed);
    UniqueOwner(u.db, user, shopId, u.id);
  }

  /** A user owns at most one shop. */
  lemma UniqueOwner(db: Db, user: nat, a: nat, b: nat)
    requires ShopsOk(db) && Owns(db, user, a) && Owns(db, user, b)
    ensures a == b
  {
    var i :| 0 <= i < |db.shops| && db.shops[i].userId == user && db.shops[i].id == a;
    var j :| 0 <= j < |db.shops| && db.shops[j].userId == user && db.shops[j].id == b;
    assert i == j;
  }

  /** Ingestion keeps every constraint of the store: one shop per user, unique keys and pairs, no dangling row. */
  lemma ReconciledValid(db: Db, user: nat, feed: Feed)
    requires Valid(db)
    ensures Valid(Reconciled(db, user, feed))
  {
    var u := UpsertShop(db, user, feed.shop);
    UpsertShopValid(db, user, feed.shop);
    var linked := AddCategories(u.db, u.id, feed.categories);
    AddCategoriesValid(u.db, u.id, feed.categories);
    DeleteListingFacts(linked, u.id);
    AddGoodsValid(DeleteListing(linked, u.id), u.id, feed.goods);
  }

  /**
   Afterwards the user owns exactly one shop, named as in the feed. An existing
   shop keeps its key and state and only its name changes; a new shop is
   created only when the user had none. Other users' shops do not change.
   */
  lemma ReconciledShop(db: Db, user: nat, feed: Feed)
    requires Valid(db)
    ensures var r := Reconciled(db, user, feed);
      && (exists i :: 0 <= i < |r.shops| && r.shops[i].userId == user && r.shops[i].name == feed.shop)
      && (forall i, j :: 0 <= i < |r.shops| && 0 <= j < |r.shops| && r.shops[i].userId == user && r.shops[j].userId == user ==> i == j)
      && (forall i :: 0 <= i < |db.shops| && db.shops[i].userId == user ==>
            |r.shops| == |db.shops| && r.shops[i] == db.shops[i].(name := feed.shop))
      && ((forall i :: 0 <= i < |db.shops| ==> db.shops[i].userId != user) ==>
            r.shops == db.shops + [Shop(db.nextId, user, feed.shop, DefaultState)])
      && (forall i :: 0 <= i < |db.shops| && db.shops[i].userId != user ==> r.shops[i] == db.shops[i])
  {
    UpsertShopValid(db, user, feed.shop);
    UpsertShopOwns(db, user, feed.shop);
    ReconciledShops(db, user, feed);
    UpsertShopRows(db, user, feed.shop);
    assert ShopsOk(UpsertShop(db, user, feed.shop).db);
  }

  /** The shop upsert renames the user's one shop in place, or appends a new one when there is none. */
  lemma UpsertShopRows(db: Db, user: nat, name: string)
    requires ShopsOk(db)
    ensures var shops := UpsertShop(db, user, name).db.shops;
      && (forall i :: 0 <= i < |db.shops| && db.shops[i].userId == user ==>
            |shops| == |db.shops| && shops[i] == db.shops[i].(name := name))
      && ((forall i :: 0 <= i < |db.shops| ==> db.shops[i].userId != user) ==>
            shops == db.shops + [Shop(db.nextId, user, name, DefaultState)])
      && (forall i :: 0 <= i < |db.shops| && db.shops[i].userId != user ==> shops[i] == db.shops[i])
  {
    match Find(db.shops, ByUser(user))
    case None =>
      forall i | 0 <= i < |db.shops| ensures db.shops[i].userId != user {
        assert !ByUser(user)(db.shops[i]);
      }
    case Some(k) =>
  }

  /**
   Afterwards every category of the feed exists and carries the user's shop.
   No category is removed or renamed and no shop is unlinked from one, so
   membership only grows; each category created has an id and name from the feed.
   No other shop is linked, and a category whose id is not in the feed is left
   as it was.
   */
  lemma ReconciledCategories(db: Db, user: nat, feed: Feed, shopId: nat)
    requires Valid(db) && Owns(Reconciled(db, user, feed), user, shopId)
    ensures var r := Reconciled(db, user, feed);
      && (forall k :: 0 <= k < |feed.categories| ==> Carries(r.categories, feed.categories[k].id, shopId))
      && CategoriesGrow(db.categories, r.categories)
      && NewFromFeed(db.categories, r.categories, feed.categories)
      && OnlyShopAdded(db.categories, r.categories, shopId)
      && OthersUnchanged(db.categories, r.categories, feed.categories)
  {
    OwnedShopIsUpserted(db, user, feed, shopId);
    var u := UpsertShop(db, user, feed.shop);
    AddCategoriesLinks(u.db, u.id, feed.categories);
    assert u.db.categories == db.categories;
  }

  /** The rows `from..` all belong to `shopId`, the rows before do not: the shop's listing is the suffix. */
  lemma ListingIsSuffix(infos: seq<ProductInfo>, from: nat, shopId: nat)
    requires from <= |infos|
    requires Listing(infos[..from], shopId) == []
    requires forall i :: from <= i < |infos| ==> infos[i].shopId == shopId
    ensures Listing(infos, shopId) == infos[from..]
  {
    var before, after := infos[..from], infos[from..];
    assert infos == before + after;
    forall i | 0 <= i < |after| ensures after[i].shopId == shopId {
      assert after[i] == infos[from + i];
    }
    WholeListing(after, shopId);
    FilterAppend(before, after, OfShop(shopId));
  }

  /** Rows that all belong to the shop are its whole listing. */
  lemma WholeListing(infos: seq<ProductInfo>, shopId: nat)
    requires forall i :: 0 <= i < |infos| ==> infos[i].shopId == shopId
    ensures Listing(infos, shopId) == infos
  {
    forall i | 0 <= i < |infos| ensures OfShop(shopId)(infos[i]) {
    }
    FilterAll(infos, OfShop(shopId));
  }

  /** The rows `from..` belong to `shopId`, so another shop's listing is the listing of the rows before. */
  lemma OtherListingIsPrefix(infos: seq<ProductInfo>, from: nat, shopId: nat, other: nat)
    requires from <= |infos| && other != shopId
    requires forall i :: from <= i < |infos| ==> infos[i].shopId == shopId
    ensures Listing(infos, other) == Listing(infos[..from], other)
  {
    var before, after := infos[..from], infos[from..];
    assert infos == before + after;
    FilterAppend(before, after, OfShop(other));
    forall i | 0 <= i < |after| ensures !OfShop(other)(after[i]) {
      assert after[i] == infos[from + i];
      assert after[i].shopId == shopId;
    }
    FilterNone(after, OfShop(other));
  }

  /**
   When the rows after `before` are listed for `goods` and `before` holds none
   of the shop's rows, the shop's listing is one row per good, and other
   shops' listings are those of `before`.
   */
  lemma ListingOfListingFor(r: Db, before: seq<ProductInfo>, goods: seq<Good>, shopId: nat, minId: nat)
    requires ListingFor(r, |before|, goods, shopId, minId)
    requires r.productInfos[..|before|] == before
    requires Listing(before, shopId) == []
    ensures var listing := Listing(r.productInfos, shopId);
      && |listing| == |goods|
      && (forall k :: 0 <= k < |listing| ==> Listed(r, listing[k], goods[k], shopId) && listing[k].id >= minId)
      && (forall other :: other != shopId ==> Listing(r.productInfos, other) == Listing(before, other))
  {
    var n := |before|;
    forall i | n <= i < |r.productInfos| ensures r.productInfos[i].shopId == shopId {
      var k := i - n;
      assert ListedAt(r, n + k, goods[k], shopId, minId);
    }
    ListingIsSuffix(r.productInfos, n, shopId);
    var listing := Listing(r.productInfos, shopId);
    forall k | 0 <= k < |listing|
      ensures Listed(r, listing[k], goods[k], shopId) && listing[k].id >= minId
    {
      assert listing[k] == r.productInfos[n + k];
      assert ListedAt(r, n + k, goods[k], shopId, minId);
    }
    forall other | other != shopId
      ensures Listing(r.productInfos, other) == Listing(before, other)
    {
      OtherListingIsPrefix(r.productInfos, n, shopId, other);
    }
  }

  /**
   After the goods loop on a shop with no listing, the listing is one product
   info per good; other shops' listings are those before the loop.
   */
  lemma GoodsListing(cleared: Db, shopId: nat, goods: seq<Good>)
    requires LinksBelow(cleared)
    requires Listing(cleared.productInfos, shopId) == []
    ensures var r := AddGoods(cleared, shopId, goods);
      var listing := Listing(r.productInfos, shopId);
      && |listing| == |goods|
      && (forall k :: 0 <= k < |listing| ==> Listed(r, listing[k], goods[k], shopId) && listing[k].id >= cleared.nextId)
      && (forall other :: other != shopId ==> Listing(r.productInfos, other) == Listing(cleared.productInfos, other))
  {
    AddGoodsListing(cleared, shopId, goods);
    ListingOfListingFor(AddGoods(cleared, shopId, goods), cleared.productInfos, goods, shopId, cleared.nextId);
  }

  /** Product parameters added by the goods loop belong to product infos it created. */
  lemma GoodsLinks(cleared: Db, shopId: nat, goods: seq<Good>, gone: set<nat>)
    requires LinksBelow(cleared)
    requires forall x :: x in gone ==> x < cleared.nextId
    requires forall i :: 0 <= i < |cleared.productParameters| ==> cleared.productParameters[i].productInfoId !in gone
    ensures var r := AddGoods(cleared, shopId, goods);
      forall i :: 0 <= i < |r.productParameters| ==> r.productParameters[i].productInfoId !in gone
  {
    AddGoodsListing(cleared, shopId, goods);
    var r := AddGoods(cleared, shopId, goods);
    var n := |cleared.productParameters|;
    forall i | 0 <= i < |r.productParameters| ensures r.productParameters[i].productInfoId !in gone {
      if i < n {
        assert r.productParameters[i] == r.productParameters[..n][i];
      }
    }
  }

  /** The keys of a table's product infos are below the key counter. */
  lemma ListedIdsBelow(db: Db, shopId: nat)
    requires InfosOk(db)
    ensures forall x :: x in ListedIds(db.productInfos, shopId) ==> x < db.nextId
    ensures forall r :: r in db.productInfos ==> r.id < db.nextId
  {
    forall r | r in db.productInfos ensures r.id < db.nextId {
      var j :| 0 <= j < |db.productInfos| && db.productInfos[j] == r;
    }
  }

  /**
   Afterwards the shop's listing is exactly one product info per good of the
   feed, in order, each with the good's external id, model, prices and
   quantity, the product of the good's (name, category), and one product
   parameter per parameter entry. None of them existed before, the product
   parameters of the deleted product infos are gone, every other shop's
   listing is unchanged, and each of its rows keeps exactly its product
   parameters: none removed, none added.
   */
  lemma ReconciledListing(db: Db, user: nat, feed: Feed, shopId: nat)
    requires Valid(db) && Owns(Reconciled(db, user, feed), user, shopId)
    ensures var r := Reconciled(db, user, feed);
      var listing := Listing(r.productInfos, shopId);
      && |listing| == |feed.goods|
      && (forall k :: 0 <= k < |listing| ==> Listed(r, listing[k], feed.goods[k], shopId))
      && (forall k :: 0 <= k < |listing| ==> listing[k].id >= db.nextId && listing[k] !in db.productInfos)
      && (forall i :: 0 <= i < |r.productParameters| ==>
            r.productParameters[i].productInfoId !in ListedIds(db.productInfos, shopId))
      && (forall other :: other != shopId ==> Listing(r.productInfos, other) == Listing(db.productInfos, other))
      && (forall i :: 0 <= i < |db.productParameters| && OfOtherShop(db.productInfos, db.productParameters[i], shopId) ==>
            db.productParameters[i] in r.productParameters)
      && (forall x :: x in db.productInfos && x.shopId != shopId ==>
            Links(r.productParameters, x.id) == Links(db.productParameters, x.id))
  {
    OwnedShopIsUpserted(db, user, feed, shopId);
    var u := UpsertShop(db, user, feed.shop);
    UpsertShopValid(db, user, feed.shop);
    var linked := AddCategories(u.db, u.id, feed.categories);
    AddCategoriesValid(u.db, u.id, feed.categories);
    var cleared := DeleteListing(linked, u.id);
    DeleteListingFacts(linked, u.id);
    LinksBelowNextId(cleared);
    assert linked.productInfos == db.productInfos;
    GoodsListing(cleared, shopId, feed.goods);
    ListedIdsBelow(db, shopId);
    GoodsLinks(cleared, shopId, feed.goods, ListedIds(db.productInfos, shopId));
    var r := Reconciled(db, user, feed);
    assert r == AddGoods(cleared, shopId, feed.goods);
    AddGoodsListing(cleared, shopId, feed.goods);
    OtherLinksKept(linked, r, shopId);
    assert linked.productParameters == db.productParameters;
  }

  /**
   Product parameters of another shop's product infos survive the delete
   and, rows being only appended afterwards, the goods loop; no product
   parameter is added to such a product info either.
   */
  lemma OtherLinksKept(db: Db, r: Db, shopId: nat)
    requires InfosOk(db) && Grows(DeleteListing(db, shopId), r)
    ensures forall i :: 0 <= i < |db.productParameters| && OfOtherShop(db.productInfos, db.productParameters[i], shopId) ==>
              db.productParameters[i] in r.productParameters
    ensures forall x :: x in db.productInfos && x.shopId != shopId ==>
              Links(r.productParameters, x.id) == Links(db.productParameters, x.id)
  {
    DeleteListingKeepsOthers(db, shopId);
    ListedIdsBelow(db, shopId);
    forall x | x in db.productInfos && x.shopId != shopId
      ensures Links(r.productParameters, x.id) == Links(db.productParameters, x.id)
    {
      LinksStable(DeleteListing(db, shopId), r, x.id);
    }
    forall i | 0 <= i < |db.productParameters| && OfOtherShop(db.productInfos, db.productParameters[i], shopId)
      ensures db.productParameters[i] in r.productParameters
    {
      GrowsKeepsLinks(DeleteListing(db, shopId), r, db.productParameters[i]);
    }
  }

  /** Every product and parameter name the goods ask for already exists. */
  ghost predicate Stocked(db: Db, goods: seq<Good>)
  {
    forall k :: 0 <= k < |goods| ==>
      && HasProduct(db.products, goods[k].name, goods[k].category)
      && forall j :: 0 <= j < |goods[k].parameters| ==> HasParameter(db.parameters, goods[k].parameters[j].0)
  }

  /** A listed product info shows that its good's product and parameters exist. */
  lemma ListedStocks(db: Db, row: ProductInfo, g: Good, shopId: nat)
    requires Listed(db, row, g, shopId)
    ensures HasProduct(db.products, g.name, g.category)
    ensures forall j :: 0 <= j < |g.parameters| ==> HasParameter(db.parameters, g.parameters[j].0)
  {
    var ls := Links(db.productParameters, row.id);
    forall j | 0 <= j < |g.parameters| ensures HasParameter(db.parameters, g.parameters[j].0) {
      assert NamesParameter(db.parameters, ls[j].parameterId, g.parameters[j].0);
    }
  }

  lemma {:induction false} AddParametersReuse(db: Db, infoId: nat, es: seq<(string, string)>)
    requires forall j :: 0 <= j < |es| ==> HasParameter(db.parameters, es[j].0)
    ensures AddParameters(db, infoId, es).parameters == db.parameters
    decreases |es|
  {
    if |es| > 0 {
      var k :| 0 <= k < |db.parameters| && db.parameters[k].name == es[0].0;
      assert ParameterNamed(es[0].0)(db.parameters[k]);
      var d1 := AddParameter(db, infoId, es[0]);
      assert d1.parameters == db.parameters;
      forall j | 0 <= j < |es[1..]| ensures HasParameter(d1.parameters, es[1..][j].0) {
        assert es[1..][j] == es[j + 1];
      }
      AddParametersReuse(d1, infoId, es[1..]);
    }
  }

  /** When every product and parameter the goods need exists, the goods loop creates none. */
  lemma {:induction false} AddGoodsReuse(db: Db, shopId: nat, goods: seq<Good>)
    requires Stocked(db, goods)
    ensures var r := AddGoods(db, shopId, goods);
      r.products == db.products && r.parameters == db.parameters
    decreases |goods|
  {
    if |goods| > 0 {
      var g := goods[0];
      var i :| 0 <= i < |db.products| && db.products[i].name == g.name && db.products[i].categoryId == g.category;
      assert ProductWithKey(g.name, g.category)(db.products[i]);
      var p := GetOrCreateProduct(db, g.name, g.category);
      assert p.db == db;
      var c := CreateInfo(p.db, shopId, p.id, g);
      AddParametersReuse(c.db, c.id, g.parameters);
      var d1 := AddGood(db, shopId, g);
      assert d1.products == db.products && d1.parameters == db.parameters;
      forall k | 0 <= k < |goods[1..]|
        ensures HasProduct(d1.products, goods[1..][k].name, goods[1..][k].category)
        ensures forall j :: 0 <= j < |goods[1..][k].parameters| ==> HasParameter(d1.parameters, goods[1..][k].parameters[j].0)
      {
        assert goods[1..][k] == goods[k + 1];
      }
      AddGoodsReuse(d1, shopId, goods[1..]);
    }
  }

  /** The product parameters of two product infos name the same parameters with the same values, in order. */
  ghost predicate SameLinks(a: Db, infoA: nat, b: Db, infoB: nat)
  {
    var x, y := Links(a.productParameters, infoA), Links(b.productParameters, infoB);
    && |x| == |y|
    && forall n :: 0 <= n < |x| ==> x[n].parameterId == y[n].parameterId && x[n].value == y[n].value
  }

  lemma SameListed(r1: Db, row1: ProductInfo, r2: Db, row2: ProductInfo, g: Good, shopId: nat)
    requires ProductsOk(r1) && ParametersOk(r1)
    requires r2.products == r1.products && r2.parameters == r1.parameters
    requires Listed(r1, row1, g, shopId) && Listed(r2, row2, g, shopId)
    ensures row2 == row1.(id := row2.id)
    ensures SameLinks(r1, row1.id, r2, row2.id)
  {
    var i :| 0 <= i < |r1.products| && r1.products[i].id == row1.productId && r1.products[i].name == g.name && r1.products[i].categoryId == g.category;
    var j :| 0 <= j < |r1.products| && r1.products[j].id == row2.productId && r1.products[j].name == g.name && r1.products[j].categoryId == g.category;
    assert i == j;
    var x, y := Links(r1.productParameters, row1.id), Links(r2.productParameters, row2.id);
    forall n | 0 <= n < |x| ensures x[n].parameterId == y[n].parameterId {
      var name := g.parameters[n].0;
      var a :| 0 <= a < |r1.parameters| && r1.parameters[a].id == x[n].parameterId && r1.parameters[a].name == name;
      var b :| 0 <= b < |r1.parameters| && r1.parameters[b].id == y[n].parameterId && r1.parameters[b].name == name;
      assert a == b;
    }
  }

  /** A user who owns a shop keeps it, under the same key, through an ingestion. */
  lemma OwnedShopKept(db: Db, user: nat, feed: Feed, shopId: nat)
    requires Valid(db) && Owns(db, user, shopId)
    ensures Owns(Reconciled(db, user, feed), user, shopId)
  {
    var i :| 0 <= i < |db.shops| && db.shops[i].userId == user && db.shops[i].id == shopId;
    assert ByUser(user)(db.shops[i]);
    var j := Find(db.shops, ByUser(user)).value;
    assert ShopsOk(db);
    assert j == i;
    var u := UpsertShop(db, user, feed.shop);
    assert u.db.shops[i].userId == user && u.db.shops[i].id == shopId;
    ReconciledShops(db, user, feed);
  }

  /** After an ingestion every product and parameter the feed's goods name exists. */
  lemma ReconciledStocks(db: Db, user: nat, feed: Feed, shopId: nat)
    requires Valid(db) && Owns(Reconciled(db, user, feed), user, shopId)
    ensures Stocked(Reconciled(db, user, feed), feed.goods)
  {
    var r := Reconciled(db, user, feed);
    ReconciledListing(db, user, feed, shopId);
    var listing := Listing(r.productInfos, shopId);
    forall k | 0 <= k < |feed.goods|
      ensures HasProduct(r.products, feed.goods[k].name, feed.goods[k].category)
      ensures forall j :: 0 <= j < |feed.goods[k].parameters| ==> HasParameter(r.parameters, feed.goods[k].parameters[j].0)
    {
      ListedStocks(r, listing[k], feed.goods[k], shopId);
    }
  }

  /** An ingestion whose goods need only existing products and parameters creates neither. */
  lemma ReconciledReuses(db: Db, user: nat, feed: Feed)
    requires Stocked(db, feed.goods)
    ensures var r := Reconciled(db, user, feed);
      r.products == db.products && r.parameters == db.parameters
  {
    var u := UpsertShop(db, user, feed.shop);
    var cleared := DeleteListing(AddCategories(u.db, u.id, feed.categories), u.id);
    assert cleared.products == db.products && cleared.parameters == db.parameters;
    AddGoodsReuse(cleared, u.id, feed.goods);
  }

  /** Two listings of the same goods over the same products and parameters agree but for their keys. */
  lemma SameGoodsSameListing(r1: Db, l1: seq<ProductInfo>, r2: Db, l2: seq<ProductInfo>, goods: seq<Good>, shopId: nat)
    requires ProductsOk(r1) && ParametersOk(r1)
    requires r2.products == r1.products && r2.parameters == r1.parameters
    requires |l1| == |goods| && forall k :: 0 <= k < |l1| ==> Listed(r1, l1[k], goods[k], shopId)
    requires |l2| == |goods| && forall k :: 0 <= k < |l2| ==> Listed(r2, l2[k], goods[k], shopId)
    ensures forall k :: 0 <= k < |l1| ==> l2[k] == l1[k].(id := l2[k].id) && SameLinks(r1, l1[k].id, r2, l2[k].id)
  {
    forall k | 0 <= k < |l1| ensures l2[k] == l1[k].(id := l2[k].id) && SameLinks(r1, l1[k].id, r2, l2[k].id) {
      SameListed(r1, l1[k], r2, l2[k], goods[k], shopId);
    }
  }

  /**
   Ingesting the same feed a second time creates no product and no parameter,
   keeps the user's shop, and lists the same offers: each product info of the
   new listing equals the old one but for its key, with the same parameters
   and values.
   */
  lemma ReingestSameFeed(db: Db, user: nat, feed: Feed, shopId: nat)
    requires Valid(db) && Owns(Reconciled(db, user, feed), user, shopId)
    ensures var r1 := Reconciled(db, user, feed);
      var r2 := Reconciled(r1, user, feed);
      && r2.products == r1.products && r2.parameters == r1.parameters
      && Owns(r2, user, shopId)
      && var l1, l2 := Listing(r1.productInfos, shopId), Listing(r2.productInfos, shopId);
         && |l1| == |l2|
         && forall k :: 0 <= k < |l1| ==> l2[k] == l1[k].(id := l2[k].id) && SameLinks(r1, l1[k].id, r2, l2[k].id)
  {
    var r1 := Reconciled(db, user, feed);
    ReconciledValid(db, user, feed);
    ReconciledStocks(db, user, feed, shopId);
    ReconciledReuses(r1, user, feed);
    OwnedShopKept(r1, user, feed, shopId);
    var r2 := Reconciled(r1, user, feed);
    ReconciledListing(db, user, feed, shopId);
    ReconciledListing(r1, user, feed, shopId);
    SameGoodsSameListing(r1, Listing(r1.productInfos, shopId), r2, Listing(r2.productInfos, shopId), feed.goods, shopId);
  }
}
