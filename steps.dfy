/**
 What each step of the reconciliation guarantees on its own: it keeps the
 store's constraints (`Valid`) and does what the corresponding ORM call
 promises. The properties of the whole ingestion are assembled from these.
 */
module Steps {
  import opened Tables
  import opened Feed
  import opened Reconcile

  /** `s` is a prefix of `t`: rows are only appended. */
  ghost predicate IsPrefix<T>(s: seq<T>, t: seq<T>)
  {
    |s| <= |t| && t[..|s|] == s
  }

  /** Some product with key `id` has this (name, category) pair. */
  ghost predicate NamesProduct(products: seq<Product>, id: nat, name: string, categoryId: int)
  {
    exists k :: 0 <= k < |products| && products[k].id == id && products[k].name == name && products[k].categoryId == categoryId
  }

  /** Some parameter with key `id` has this name. */
  ghost predicate NamesParameter(parameters: seq<Parameter>, id: nat, name: string)
  {
    exists k :: 0 <= k < |parameters| && parameters[k].id == id && parameters[k].name == name
  }

  /** The product parameters of `infoId` are one per entry, in order, with the entry's name and value. */
  ghost predicate LinksMatch(db: Db, infoId: nat, entries: seq<(string, string)>)
  {
    var ls := Links(db.productParameters, infoId);
    && |ls| == |entries|
    && forall j :: 0 <= j < |ls| ==> ls[j].value == entries[j].1 && NamesParameter(db.parameters, ls[j].parameterId, entries[j].0)
  }

  /** `row` is the product info created for good `g` of shop `shopId`. */
  ghost predicate Listed(db: Db, row: ProductInfo, g: Good, shopId: nat)
  {
    && row.shopId == shopId
    && row.externalId == g.id && row.model == g.model
    && row.price == g.price && row.priceRrc == g.priceRrc && row.quantity == g.quantity
    && NamesProduct(db.products, row.productId, g.name, g.category)
    && LinksMatch(db, row.id, g.parameters)
  }

  /** `b` only appended rows to `a`, and every product parameter it added belongs to a newer product info. */
  ghost predicate Grows(a: Db, b: Db)
  {
    && a.shops == b.shops && a.categories == b.categories
    && IsPrefix(a.products, b.products) && IsPrefix(a.productInfos, b.productInfos)
    && IsPrefix(a.parameters, b.parameters) && IsPrefix(a.productParameters, b.productParameters)
    && a.nextId <= b.nextId
    && forall i :: |a.productParameters| <= i < |b.productParameters| ==> b.productParameters[i].productInfoId >= a.nextId
  }

  lemma GrowsTransitive(a: Db, b: Db, c: Db)
    requires Grows(a, b) && Grows(b, c)
    ensures Grows(a, c)
  {
    forall i | |a.productParameters| <= i < |c.productParameters|
      ensures c.productParameters[i].productInfoId >= a.nextId
    {
      if i < |b.productParameters| {
        assert c.productParameters[i] == b.productParameters[i];
      }
    }
  }

  /** Every product parameter points at a key below the key counter. */
  ghost predicate LinksBelow(db: Db)
  {
    forall i :: 0 <= i < |db.productParameters| ==> db.productParameters[i].productInfoId < db.nextId
  }

  /** In a valid store product parameters point at existing product infos, whose keys are below the counter. */
  lemma LinksBelowNextId(db: Db)
    requires InfosOk(db) && LinksOk(db)
    ensures LinksBelow(db)
  {
    forall i | 0 <= i < |db.productParameters|
      ensures db.productParameters[i].productInfoId < db.nextId
    {
      var x := db.productParameters[i].productInfoId;
      assert x in InfoIds(db.productInfos);
      var r :| r in db.productInfos && r.id == x;
      var k :| 0 <= k < |db.productInfos| && db.productInfos[k] == r;
    }
  }

  /** The shop upsert keeps the store valid (still one shop per user) and returns an existing key. */
  lemma UpsertShopValid(db: Db, user: nat, name: string)
    requires Valid(db)
    ensures var u := UpsertShop(db, user, name);
      Valid(u.db) && u.id in ShopIds(u.db.shops)
  {
    var u := UpsertShop(db, user, name);
    match Find(db.shops, ByUser(user))
    case None =>
      var n := |db.shops|;
      assert u.db.shops[n] in u.db.shops;
      forall i | 0 <= i < n ensures db.shops[i].userId != user {
        assert !ByUser(user)(db.shops[i]);
      }
      assert ShopsOk(u.db);
    case Some(i) =>
      SameShopIds(db.shops, u.db.shops);
      assert u.db.shops[i] in u.db.shops;
      assert ShopsOk(u.db);
  }

  /** After the shop upsert the user owns a shop with the returned key and the given name. */
  lemma UpsertShopOwns(db: Db, user: nat, name: string)
    ensures var u := UpsertShop(db, user, name);
      exists i :: 0 <= i < |u.db.shops| && u.db.shops[i].userId == user && u.db.shops[i].id == u.id && u.db.shops[i].name == name
  {
    var u := UpsertShop(db, user, name);
    match Find(db.shops, ByUser(user))
    case None =>
      assert u.db.shops[|db.shops|].userId == user;
    case Some(i) =>
      assert u.db.shops[i].userId == user;
  }

  /** Some category with this id has the shop in its shop set. */
  ghost predicate Carries(cats: seq<Category>, id: int, shopId: nat)
  {
    exists i :: 0 <= i < |cats| && cats[i].id == id && shopId in cats[i].shops
  }

  /** Every category of `a` is still in `b` at its place, with its name and at least its shops. */
  ghost predicate CategoriesGrow(a: seq<Category>, b: seq<Category>)
  {
    && |a| <= |b|
    && forall i :: 0 <= i < |a| ==> b[i].id == a[i].id && b[i].name == a[i].name && a[i].shops <= b[i].shops
  }

  /** Every category of `b` that `a` lacks has the id and name of an entry of the feed. */
  ghost predicate NewFromFeed(a: seq<Category>, b: seq<Category>, cats: seq<FeedCategory>)
  {
    forall i :: |a| <= i < |b| ==> FromFeed(b[i], cats)
  }

  /** Some entry of the feed has the category's id and name. */
  ghost predicate FromFeed(c: Category, cats: seq<FeedCategory>)
  {
    exists k :: 0 <= k < |cats| && cats[k].id == c.id && cats[k].name == c.name
  }

  /** `b` links no shop but `shopId`: old categories gain at most `shopId`, new ones carry `shopId` alone. */
  ghost predicate OnlyShopAdded(a: seq<Category>, b: seq<Category>, shopId: nat)
  {
    && (forall i :: 0 <= i < |a| && i < |b| ==> b[i].shops <= a[i].shops + {shopId})
    && (forall i :: |a| <= i < |b| ==> b[i].shops == {shopId})
  }

  /** No entry of the feed has this category id. */
  ghost predicate AbsentFromFeed(id: int, cats: seq<FeedCategory>)
  {
    forall k :: 0 <= k < |cats| ==> cats[k].id != id
  }

  /** A category of `a` whose id no entry of the feed has keeps its row in `b`. */
  ghost predicate OthersUnchanged(a: seq<Category>, b: seq<Category>, cats: seq<FeedCategory>)
  {
    forall i :: 0 <= i < |a| && i < |b| && AbsentFromFeed(a[i].id, cats) ==> b[i] == a[i]
  }

  lemma AbsentFromRest(id: int, cats: seq<FeedCategory>)
    requires |cats| > 0 && AbsentFromFeed(id, cats)
    ensures cats[0].id != id && AbsentFromFeed(id, cats[1..])
  {
    forall k | 0 <= k < |cats[1..]| ensures cats[1..][k].id != id {
      assert cats[1..][k] == cats[k + 1];
    }
  }

  lemma OnlyShopAddedTransitive(a: seq<Category>, b: seq<Category>, c: seq<Category>, shopId: nat)
    requires CategoriesGrow(a, b) && CategoriesGrow(b, c)
    requires OnlyShopAdded(a, b, shopId) && OnlyShopAdded(b, c, shopId)
    ensures OnlyShopAdded(a, c, shopId)
  {
    forall i | |a| <= i < |c| ensures c[i].shops == {shopId} {
      if i < |b| {
        assert b[i].shops == {shopId} && b[i].shops <= c[i].shops;
      }
    }
  }

  /** Linking a category keeps the store valid: ids stay unique and the linked shop exists. */
  lemma AddCategoryValid(db: Db, shopId: nat, c: FeedCategory)
    requires Valid(db) && shopId in ShopIds(db.shops)
    ensures Valid(AddCategory(db, shopId, c))
  {
    var r := AddCategory(db, shopId, c);
    match Find(db.categories, CategoryWithId(c.id))
    case None =>
      forall i | 0 <= i < |db.categories| ensures db.categories[i].id != c.id {
        assert !CategoryWithId(c.id)(db.categories[i]);
      }
      assert CategoriesOk(r);
    case Some(i) =>
      assert CategoriesOk(r);
  }

  /**
   Linking a category keeps every category with its id, name and shops;
   afterwards the feed's id carries the shop, and a created category has the
   feed's id and name. No shop but `shopId` is linked, and a category with
   another id keeps its row.
   */
  lemma AddCategoryLinks(db: Db, shopId: nat, c: FeedCategory)
    ensures var r := AddCategory(db, shopId, c);
      && CategoriesGrow(db.categories, r.categories)
      && Carries(r.categories, c.id, shopId)
      && (forall i :: |db.categories| <= i < |r.categories| ==> r.categories[i].id == c.id && r.categories[i].name == c.name)
      && OnlyShopAdded(db.categories, r.categories, shopId)
      && (forall i :: 0 <= i < |db.categories| && db.categories[i].id != c.id ==> r.categories[i] == db.categories[i])
  {
    var r := AddCategory(db, shopId, c);
    match Find(db.categories, CategoryWithId(c.id))
    case None =>
      var n := |db.categories|;
      assert r.categories[n].id == c.id && shopId in r.categories[n].shops;
    case Some(i) =>
      assert r.categories[i].id == c.id && shopId in r.categories[i].shops;
  }

  lemma CarriesGrows(a: seq<Category>, b: seq<Category>, id: int, shopId: nat)
    requires CategoriesGrow(a, b) && Carries(a, id, shopId)
    ensures Carries(b, id, shopId)
  {
    var i :| 0 <= i < |a| && a[i].id == id && shopId in a[i].shops;
    assert b[i].id == id && shopId in b[i].shops;
  }

  /** Categories created by one link come from the feed's first entry, those of the rest from the rest. */
  lemma NewFromFeedCons(a: seq<Category>, d1: seq<Category>, r: seq<Category>, cats: seq<FeedCategory>)
    requires |cats| > 0 && |a| <= |d1|
    requires forall i :: |a| <= i < |d1| ==> d1[i].id == cats[0].id && d1[i].name == cats[0].name
    requires CategoriesGrow(d1, r) && NewFromFeed(d1, r, cats[1..])
    ensures NewFromFeed(a, r, cats)
  {
    forall i | |a| <= i < |r| ensures FromFeed(r[i], cats) {
      if i < |d1| {
        assert cats[0].id == r[i].id && cats[0].name == r[i].name;
      } else {
        assert FromFeed(r[i], cats[1..]);
        var k :| 0 <= k < |cats[1..]| && cats[1..][k].id == r[i].id && cats[1..][k].name == r[i].name;
        assert cats[k + 1] == cats[1..][k];
      }
    }
  }

  lemma CategoriesGrowTransitive(a: seq<Category>, b: seq<Category>, c: seq<Category>)
    requires CategoriesGrow(a, b) && CategoriesGrow(b, c)
    ensures CategoriesGrow(a, c)
  {
  }

  /** The category loop keeps the store valid. */
  lemma {:induction false} AddCategoriesValid(db: Db, shopId: nat, cats: seq<FeedCategory>)
    requires Valid(db) && shopId in ShopIds(db.shops)
    ensures Valid(AddCategories(db, shopId, cats))
    decreases |cats|
  {
    if |cats| > 0 {
      AddCategoryValid(db, shopId, cats[0]);
      var d1 := AddCategory(db, shopId, cats[0]);
      assert d1.shops == db.shops;
      AddCategoriesValid(d1, shopId, cats[1..]);
    }
  }

  /**
   The category loop never drops a category, renames one or unlinks a shop;
   afterwards every feed category carries the shop, and every category it
   created comes from the feed. It links no shop but `shopId`, and a category
   whose id is not in the feed keeps its row.
   */
  lemma {:induction false} AddCategoriesLinks(db: Db, shopId: nat, cats: seq<FeedCategory>)
    ensures var r := AddCategories(db, shopId, cats);
      && CategoriesGrow(db.categories, r.categories)
      && NewFromFeed(db.categories, r.categories, cats)
      && (forall k :: 0 <= k < |cats| ==> Carries(r.categories, cats[k].id, shopId))
      && OnlyShopAdded(db.categories, r.categories, shopId)
      && OthersUnchanged(db.categories, r.categories, cats)
    decreases |cats|
  {
    if |cats| > 0 {
      var c := cats[0];
      var d1 := AddCategory(db, shopId, c);
      var r := AddCategories(d1, shopId, cats[1..]);
      assert r == AddCategories(db, shopId, cats);
      AddCategoryLinks(db, shopId, c);
      AddCategoriesLinks(d1, shopId, cats[1..]);
      CategoriesGrowTransitive(db.categories, d1.categories, r.categories);
      CarriesGrows(d1.categories, r.categories, c.id, shopId);
      forall k | 1 <= k < |cats| ensures Carries(r.categories, cats[k].id, shopId) {
        assert cats[1..][k - 1] == cats[k];
      }
      NewFromFeedCons(db.categories, d1.categories, r.categories, cats);
      OnlyShopAddedTransitive(db.categories, d1.categories, r.categories, shopId);
      forall i | 0 <= i < |db.categories| && i < |r.categories| && AbsentFromFeed(db.categories[i].id, cats)
        ensures r.categories[i] == db.categories[i]
      {
        AbsentFromRest(db.categories[i].id, cats);
        assert d1.categories[i] == db.categories[i];
      }
    } else {
      assert CategoriesGrow(db.categories, db.categories);
    }
  }

  lemma DeletedInfosOk(db: Db, shopId: nat)
    requires InfosOk(db)
    ensures InfosOk(DeleteListing(db, shopId))
  {
    var r := DeleteListing(db, shopId);
    forall i | 0 <= i < |r.productInfos|
      ensures r.productInfos[i].id < r.nextId
      ensures r.productInfos[i].productId in ProductIds(r.products)
      ensures r.productInfos[i].shopId in ShopIds(r.shops)
    {
      assert r.productInfos[i] in r.productInfos;
      var k :| 0 <= k < |db.productInfos| && db.productInfos[k] == r.productInfos[i];
    }
    FilterKeysDistinct(db.productInfos, NotOfShop(shopId), InfoKey);
  }

  lemma DeletedLinksOk(db: Db, shopId: nat)
    requires LinksOk(db)
    ensures LinksOk(DeleteListing(db, shopId))
  {
    var r := DeleteListing(db, shopId);
    var gone := ListedIds(db.productInfos, shopId);
    forall i | 0 <= i < |r.productParameters|
      ensures r.productParameters[i].id < r.nextId
      ensures r.productParameters[i].productInfoId in InfoIds(r.productInfos)
      ensures r.productParameters[i].parameterId in ParameterIds(r.parameters)
    {
      var p := r.productParameters[i];
      assert p in r.productParameters;
      assert NotLinkedToAny(gone)(p);
      var k :| 0 <= k < |db.productParameters| && db.productParameters[k] == p;
      var info :| info in db.productInfos && info.id == p.productInfoId;
      assert info.shopId != shopId;
      assert NotOfShop(shopId)(info);
      assert info in r.productInfos;
    }
    FilterKeysDistinct(db.productParameters, NotLinkedToAny(gone), LinkKey);
  }

  /** The product parameter belongs to a product info of a shop other than `shopId`. */
  ghost predicate OfOtherShop(infos: seq<ProductInfo>, p: ProductParameter, shopId: nat)
  {
    exists k :: 0 <= k < |infos| && infos[k].id == p.productInfoId && infos[k].shopId != shopId
  }

  /**
   Deleting one shop's listing keeps every other shop's listing, and (keys
   being distinct) every product parameter of another shop's product info:
   such a product info has exactly the product parameters it had.
   */
  lemma DeleteListingKeepsOthers(db: Db, shopId: nat)
    requires DistinctInfoIds(db.productInfos)
    ensures var r := DeleteListing(db, shopId);
      && (forall other :: other != shopId ==> Listing(r.productInfos, other) == Listing(db.productInfos, other))
      && (forall i :: 0 <= i < |db.productParameters| && OfOtherShop(db.productInfos, db.productParameters[i], shopId) ==>
            db.productParameters[i] in r.productParameters)
      && (forall x :: x in db.productInfos && x.shopId != shopId ==>
            Links(r.productParameters, x.id) == Links(db.productParameters, x.id))
  {
    var r := DeleteListing(db, shopId);
    var gone := ListedIds(db.productInfos, shopId);
    forall x | x in db.productInfos && x.shopId != shopId
      ensures Links(r.productParameters, x.id) == Links(db.productParameters, x.id)
    {
      var k :| 0 <= k < |db.productInfos| && db.productInfos[k] == x;
      forall q | q in db.productInfos && q.shopId == shopId ensures q.id != x.id {
        var m :| 0 <= m < |db.productInfos| && db.productInfos[m] == q;
        assert m != k;
        assert InfoKey(db.productInfos[m]) != InfoKey(db.productInfos[k]);
      }
      assert x.id !in gone;
      FilterSubsumed(db.productParameters, NotLinkedToAny(gone), LinkedTo(x.id));
    }
    forall other | other != shopId
      ensures Listing(r.productInfos, other) == Listing(db.productInfos, other)
    {
      FilterSubsumed(db.productInfos, NotOfShop(shopId), OfShop(other));
    }
    forall i | 0 <= i < |db.productParameters| && OfOtherShop(db.productInfos, db.productParameters[i], shopId)
      ensures db.productParameters[i] in r.productParameters
    {
      var p := db.productParameters[i];
      var k :| 0 <= k < |db.productInfos| && db.productInfos[k].id == p.productInfoId && db.productInfos[k].shopId != shopId;
      forall q | q in db.productInfos && q.shopId == shopId ensures q.id != p.productInfoId {
        var m :| 0 <= m < |db.productInfos| && db.productInfos[m] == q;
        assert m != k;
        assert InfoKey(db.productInfos[m]) != InfoKey(db.productInfos[k]);
      }
      assert NotLinkedToAny(gone)(p) && p in db.productParameters;
    }
  }

  /**
   Deleting the listing keeps the store valid (the cascade leaves no product
   parameter behind that points at a deleted product info) and leaves the shop
   with no product info. Other shops keep their product infos and the product
   parameters of those.
   */
  lemma DeleteListingFacts(db: Db, shopId: nat)
    requires Valid(db)
    ensures var r := DeleteListing(db, shopId);
      && Valid(r)
      && Listing(r.productInfos, shopId) == []
      && (forall i :: 0 <= i < |r.productParameters| ==> r.productParameters[i].productInfoId !in ListedIds(db.productInfos, shopId))
      && (forall other :: other != shopId ==> Listing(r.productInfos, other) == Listing(db.productInfos, other))
      && (forall i :: 0 <= i < |db.productParameters| && OfOtherShop(db.productInfos, db.productParameters[i], shopId) ==>
            db.productParameters[i] in r.productParameters)
  {
    DeleteListingKeepsOthers(db, shopId);
    var r := DeleteListing(db, shopId);
    DeletedInfosOk(db, shopId);
    DeletedLinksOk(db, shopId);
    forall i | 0 <= i < |r.productInfos| ensures !OfShop(shopId)(r.productInfos[i]) {
      assert r.productInfos[i] in r.productInfos;
    }
    FilterNone(r.productInfos, OfShop(shopId));
    forall i | 0 <= i < |r.productParameters|
      ensures r.productParameters[i].productInfoId !in ListedIds(db.productInfos, shopId)
    {
      assert r.productParameters[i] in r.productParameters;
    }
  }

  lemma NamesParameterGrows(a: seq<Parameter>, b: seq<Parameter>, id: nat, name: string)
    requires IsPrefix(a, b) && NamesParameter(a, id, name)
    ensures NamesParameter(b, id, name)
  {
    var k :| 0 <= k < |a| && a[k].id == id && a[k].name == name;
    assert b[k] == b[..|a|][k];
  }

  lemma NamesProductGrows(a: seq<Product>, b: seq<Product>, id: nat, name: string, categoryId: int)
    requires IsPrefix(a, b) && NamesProduct(a, id, name, categoryId)
    ensures NamesProduct(b, id, name, categoryId)
  {
    var k :| 0 <= k < |a| && a[k].id == id && a[k].name == name && a[k].categoryId == categoryId;
    assert b[k] == b[..|a|][k];
  }

  /** Parameter get-or-create only appends to the parameter table and returns the key of a parameter with that name. */
  lemma GetOrCreateParameterFound(db: Db, name: string)
    ensures var p := GetOrCreateParameter(db, name);
      && p.db.(parameters := db.parameters, nextId := db.nextId) == db
      && IsPrefix(db.parameters, p.db.parameters)
      && db.nextId <= p.db.nextId
      && NamesParameter(p.db.parameters, p.id, name)
  {
    var p := GetOrCreateParameter(db, name);
    match Find(db.parameters, ParameterNamed(name))
    case None =>
      var n := |db.parameters|;
      assert p.db.parameters[n].id == p.id && p.db.parameters[n].name == name;
      assert p.db.parameters[..n] == db.parameters;
    case Some(i) =>
      assert p.db.parameters[i].id == p.id && p.db.parameters[i].name == name;
      assert db.parameters[..|db.parameters|] == db.parameters;
  }

  /** Some product has this (name, category) pair. */
  ghost predicate HasProduct(products: seq<Product>, name: string, categoryId: int)
  {
    exists i :: 0 <= i < |products| && products[i].name == name && products[i].categoryId == categoryId
  }

  /** Some parameter has this name. */
  ghost predicate HasParameter(parameters: seq<Parameter>, name: string)
  {
    exists i :: 0 <= i < |parameters| && parameters[i].name == name
  }

  /**
   The two halves of parameter get-or-create: a name that exists changes
   nothing; a new name appends one parameter with the fresh key.
   */
  lemma GetOrCreateParameterCases(db: Db, name: string)
    ensures var p := GetOrCreateParameter(db, name);
      && (HasParameter(db.parameters, name) ==> p.db == db)
      && (!HasParameter(db.parameters, name) ==>
            p.db == db.(parameters := db.parameters + [Parameter(db.nextId, name)], nextId := db.nextId + 1)
            && p.id == db.nextId)
  {
    if HasParameter(db.parameters, name) {
      var i :| 0 <= i < |db.parameters| && db.parameters[i].name == name;
      assert ParameterNamed(name)(db.parameters[i]);
    }
  }

  /** Parameter get-or-create keeps the store valid (names stay unique) and returns an existing key. */
  lemma GetOrCreateParameterValid(db: Db, name: string)
    requires Valid(db)
    ensures var p := GetOrCreateParameter(db, name);
      Valid(p.db) && p.id in ParameterIds(p.db.parameters)
  {
    var p := GetOrCreateParameter(db, name);
    match Find(db.parameters, ParameterNamed(name))
    case None =>
      var n := |db.parameters|;
      forall i | 0 <= i < n ensures db.parameters[i].name != name {
        assert !ParameterNamed(name)(db.parameters[i]);
      }
      assert p.db.parameters[n] in p.db.parameters;
      assert ParameterIds(db.parameters) <= ParameterIds(p.db.parameters);
    case Some(i) =>
      assert p.db.parameters[i] in p.db.parameters;
  }

  /** One parameter entry appends exactly one product parameter, linking `infoId` to the entry. */
  lemma AddParameterLinks(db: Db, infoId: nat, e: (string, string))
    ensures var r := AddParameter(db, infoId, e);
      var n := |db.productParameters|;
      && IsPrefix(db.parameters, r.parameters)
      && db.nextId < r.nextId
      && |r.productParameters| == n + 1
      && r.productParameters[..n] == db.productParameters
      && r.productParameters[n].productInfoId == infoId
      && r.productParameters[n].value == e.1
      && NamesParameter(r.parameters, r.productParameters[n].parameterId, e.0)
  {
    GetOrCreateParameterFound(db, e.0);
  }

  /** A product parameter linking an existing product info and parameter keeps the store valid. */
  lemma CreateLinkValid(db: Db, infoId: nat, parameterId: nat, value: string)
    requires Valid(db) && infoId in InfoIds(db.productInfos) && parameterId in ParameterIds(db.parameters)
    ensures Valid(CreateLink(db, infoId, parameterId, value))
  {
    var r := CreateLink(db, infoId, parameterId, value);
    assert LinksOk(r);
  }

  /** One parameter entry keeps the store valid. */
  lemma AddParameterValid(db: Db, infoId: nat, e: (string, string))
    requires Valid(db) && infoId in InfoIds(db.productInfos)
    ensures Valid(AddParameter(db, infoId, e))
  {
    var p := GetOrCreateParameter(db, e.0);
    GetOrCreateParameterFound(db, e.0);
    GetOrCreateParameterValid(db, e.0);
    assert p.db.productInfos == db.productInfos;
    CreateLinkValid(p.db, infoId, p.id, e.1);
  }

  /** Rows `from..` of `pps` link `infoId` to the entries `es`, one each, in order. */
  ghost predicate LinksFor(pps: seq<ProductParameter>, from: nat, parameters: seq<Parameter>,
                           infoId: nat, es: seq<(string, string)>)
  {
    && |pps| == from + |es|
    && forall j :: 0 <= j < |es| ==> LinkAt(pps, from + j, parameters, infoId, es[j])
  }

  /** Row `i` of `pps` links `infoId` to the parameter named by entry `e`, with the entry's value. */
  ghost predicate LinkAt(pps: seq<ProductParameter>, i: nat, parameters: seq<Parameter>, infoId: nat, e: (string, string))
  {
    && i < |pps|
    && pps[i].productInfoId == infoId && pps[i].value == e.1
    && NamesParameter(parameters, pps[i].parameterId, e.0)
  }

  lemma LinksForCons(pps: seq<ProductParameter>, from: nat, d1: Db, parameters: seq<Parameter>,
                     infoId: nat, es: seq<(string, string)>)
    requires |es| > 0 && from < |d1.productParameters| && IsPrefix(d1.productParameters, pps)
    requires IsPrefix(d1.parameters, parameters)
    requires from + 1 == |d1.productParameters|
    requires d1.productParameters[from].productInfoId == infoId && d1.productParameters[from].value == es[0].1
    requires NamesParameter(d1.parameters, d1.productParameters[from].parameterId, es[0].0)
    requires LinksFor(pps, from + 1, parameters, infoId, es[1..])
    ensures LinksFor(pps, from, parameters, infoId, es)
  {
    assert pps[from] == pps[..|d1.productParameters|][from];
    NamesParameterGrows(d1.parameters, parameters, d1.productParameters[from].parameterId, es[0].0);
    var rest := es[1..];
    assert LinkAt(pps, from, parameters, infoId, es[0]);
    forall j | 1 <= j < |es| ensures LinkAt(pps, from + j, parameters, infoId, es[j]) {
      var k := j - 1;
      assert rest[k] == es[j] && (from + 1) + k == from + j;
      assert LinkAt(pps, (from + 1) + k, parameters, infoId, rest[k]);
    }
  }

  lemma IsPrefixTransitive<T>(a: seq<T>, b: seq<T>, c: seq<T>)
    requires IsPrefix(a, b) && IsPrefix(b, c)
    ensures IsPrefix(a, c)
  {
    assert c[..|a|] == c[..|b|][..|a|];
  }

  /** The parameter loop keeps the store valid. */
  lemma {:induction false} AddParametersValid(db: Db, infoId: nat, es: seq<(string, string)>)
    requires Valid(db) && infoId in InfoIds(db.productInfos)
    ensures Valid(AddParameters(db, infoId, es))
    decreases |es|
  {
    if |es| > 0 {
      AddParameterValid(db, infoId, es[0]);
      var d1 := AddParameter(db, infoId, es[0]);
      assert d1.productInfos == db.productInfos;
      AddParametersValid(d1, infoId, es[1..]);
    }
  }

  /**
   The parameter loop appends one product parameter per entry, in order, each
   linking `infoId` to the parameter of the entry's name with the entry's value.
   */
  lemma {:induction false} AddParametersLinks(db: Db, infoId: nat, es: seq<(string, string)>)
    ensures var r := AddParameters(db, infoId, es);
      && IsPrefix(db.parameters, r.parameters)
      && db.nextId <= r.nextId
      && IsPrefix(db.productParameters, r.productParameters)
      && LinksFor(r.productParameters, |db.productParameters|, r.parameters, infoId, es)
    decreases |es|
  {
    if |es| > 0 {
      var d1 := AddParameter(db, infoId, es[0]);
      var r := AddParameters(d1, infoId, es[1..]);
      assert r == AddParameters(db, infoId, es);
      AddParameterLinks(db, infoId, es[0]);
      AddParametersLinks(d1, infoId, es[1..]);
      IsPrefixTransitive(db.parameters, d1.parameters, r.parameters);
      IsPrefixTransitive(db.productParameters, d1.productParameters, r.productParameters);
      LinksForCons(r.productParameters, |db.productParameters|, d1, r.parameters, infoId, es);
    } else {
      assert db.productParameters[..|db.productParameters|] == db.productParameters;
      assert db.parameters[..|db.parameters|] == db.parameters;
    }
  }

  /** When rows before `from` do not link `infoId` and the rest do, the rest are its links. */
  lemma LinksAreSuffix(pps: seq<ProductParameter>, from: nat, infoId: nat)
    requires from <= |pps|
    requires forall i :: 0 <= i < from ==> pps[i].productInfoId != infoId
    requires forall i :: from <= i < |pps| ==> pps[i].productInfoId == infoId
    ensures Links(pps, infoId) == pps[from..]
  {
    var a, b := pps[..from], pps[from..];
    assert pps == a + b;
    forall i | 0 <= i < |a| ensures !LinkedTo(infoId)(a[i]) {
      assert a[i] == pps[i];
    }
    FilterNone(a, LinkedTo(infoId));
    forall i | 0 <= i < |b| ensures LinkedTo(infoId)(b[i]) {
      assert b[i] == pps[from + i];
    }
    FilterAll(b, LinkedTo(infoId));
    FilterAppend(a, b, LinkedTo(infoId));
  }

  /** When no earlier row links `infoId`, the appended rows are all of its product parameters. */
  lemma LinksMatchFromLinksFor(db: Db, from: nat, infoId: nat, es: seq<(string, string)>)
    requires LinksFor(db.productParameters, from, db.parameters, infoId, es)
    requires forall i :: 0 <= i < from ==> db.productParameters[i].productInfoId != infoId
    ensures LinksMatch(db, infoId, es)
  {
    var pps := db.productParameters;
    forall i | from <= i < |pps| ensures pps[i].productInfoId == infoId {
      var j := i - from;
      assert LinkAt(pps, from + j, db.parameters, infoId, es[j]);
    }
    LinksAreSuffix(pps, from, infoId);
    var ls := Links(pps, infoId);
    forall j | 0 <= j < |es|
      ensures ls[j].value == es[j].1 && NamesParameter(db.parameters, ls[j].parameterId, es[j].0)
    {
      assert ls[j] == pps[from + j];
      assert LinkAt(pps, from + j, db.parameters, infoId, es[j]);
    }
  }

  /** Product get-or-create only appends to the product table and returns the key of a product with that pair. */
  lemma GetOrCreateProductFound(db: Db, name: string, categoryId: int)
    ensures var p := GetOrCreateProduct(db, name, categoryId);
      && p.db.(products := db.products, nextId := db.nextId) == db
      && IsPrefix(db.products, p.db.products)
      && db.nextId <= p.db.nextId
      && NamesProduct(p.db.products, p.id, name, categoryId)
  {
    var p := GetOrCreateProduct(db, name, categoryId);
    match Find(db.products, ProductWithKey(name, categoryId))
    case None =>
      var n := |db.products|;
      assert p.db.products[n].id == p.id && p.db.products[n].name == name && p.db.products[n].categoryId == categoryId;
      assert p.db.products[..n] == db.products;
    case Some(i) =>
      assert p.db.products[i].id == p.id && p.db.products[i].name == name && p.db.products[i].categoryId == categoryId;
      assert db.products[..|db.products|] == db.products;
  }

  /**
   The two halves of product get-or-create: a (name, category) pair that
   exists changes nothing; a new pair appends one product with the fresh key.
   */
  lemma GetOrCreateProductCases(db: Db, name: string, categoryId: int)
    ensures var p := GetOrCreateProduct(db, name, categoryId);
      && (HasProduct(db.products, name, categoryId) ==> p.db == db)
      && (!HasProduct(db.products, name, categoryId) ==>
            p.db == db.(products := db.products + [Product(db.nextId, name, categoryId)], nextId := db.nextId + 1)
            && p.id == db.nextId)
  {
    if HasProduct(db.products, name, categoryId) {
      var i :| 0 <= i < |db.products| && db.products[i].name == name && db.products[i].categoryId == categoryId;
      assert ProductWithKey(name, categoryId)(db.products[i]);
    }
  }

  /** Product get-or-create keeps the store valid ((name, category) pairs stay unique) and returns an existing key. */
  lemma GetOrCreateProductValid(db: Db, name: string, categoryId: int)
    requires Valid(db)
    ensures var p := GetOrCreateProduct(db, name, categoryId);
      Valid(p.db) && p.id in ProductIds(p.db.products)
  {
    var p := GetOrCreateProduct(db, name, categoryId);
    match Find(db.products, ProductWithKey(name, categoryId))
    case None =>
      var n := |db.products|;
      forall i | 0 <= i < n ensures (db.products[i].name, db.products[i].categoryId) != (name, categoryId) {
        assert !ProductWithKey(name, categoryId)(db.products[i]);
      }
      assert p.db.products[n] in p.db.products;
      assert ProductIds(db.products) <= ProductIds(p.db.products);
    case Some(i) =>
      assert p.db.products[i] in p.db.products;
  }

  /** Creating a product info for an existing product and shop keeps the store valid. */
  lemma CreateInfoValid(db: Db, shopId: nat, productId: nat, g: Good)
    requires Valid(db) && shopId in ShopIds(db.shops) && productId in ProductIds(db.products)
    ensures var c := CreateInfo(db, shopId, productId, g);
      Valid(c.db) && c.id in InfoIds(c.db.productInfos)
  {
    var c := CreateInfo(db, shopId, productId, g);
    assert c.db.productInfos[|db.productInfos|] in c.db.productInfos;
    assert InfoIds(db.productInfos) <= InfoIds(c.db.productInfos);
  }

  /** Product get-or-create only appends rows. */
  lemma GetOrCreateProductGrows(db: Db, name: string, categoryId: int)
    ensures Grows(db, GetOrCreateProduct(db, name, categoryId).db)
  {
    GetOrCreateProductFound(db, name, categoryId);
    GrowsReflexive(db);
  }

  /**
   A new product info with its parameters only appends rows, and the product
   parameters it adds belong to the new product info.
   */
  lemma InfoWithParametersGrows(db: Db, shopId: nat, productId: nat, g: Good)
    ensures var c := CreateInfo(db, shopId, productId, g);
      Grows(db, AddParameters(c.db, c.id, g.parameters))
  {
    var c := CreateInfo(db, shopId, productId, g);
    var r := AddParameters(c.db, c.id, g.parameters);
    AddParametersLinks(c.db, c.id, g.parameters);
    var n := |db.productParameters|;
    assert r.productInfos[..|db.productInfos|] == db.productInfos;
    assert db.products[..|db.products|] == db.products;
    forall i | n <= i < |r.productParameters| ensures r.productParameters[i].productInfoId >= db.nextId {
      var j := i - n;
      assert LinkAt(r.productParameters, n + j, r.parameters, c.id, g.parameters[j]);
    }
  }

  /** One good only appends rows, and its product parameters belong to its new product info. */
  lemma AddGoodGrows(db: Db, shopId: nat, g: Good)
    ensures Grows(db, AddGood(db, shopId, g))
  {
    var p := GetOrCreateProduct(db, g.name, g.category);
    GetOrCreateProductGrows(db, g.name, g.category);
    InfoWithParametersGrows(p.db, shopId, p.id, g);
    GrowsTransitive(db, p.db, AddGood(db, shopId, g));
  }

  /** One good keeps the store valid. */
  lemma AddGoodValid(db: Db, shopId: nat, g: Good)
    requires Valid(db) && shopId in ShopIds(db.shops)
    ensures Valid(AddGood(db, shopId, g))
  {
    var p := GetOrCreateProduct(db, g.name, g.category);
    GetOrCreateProductFound(db, g.name, g.category);
    GetOrCreateProductValid(db, g.name, g.category);
    var c := CreateInfo(p.db, shopId, p.id, g);
    CreateInfoValid(p.db, shopId, p.id, g);
    AddParametersValid(c.db, c.id, g.parameters);
  }

  /** A new product info with its parameters is listed for its good. */
  lemma InfoWithParametersListed(db: Db, shopId: nat, productId: nat, g: Good)
    requires LinksBelow(db) && NamesProduct(db.products, productId, g.name, g.category)
    ensures var c := CreateInfo(db, shopId, productId, g);
      var r := AddParameters(c.db, c.id, g.parameters);
      && |r.productInfos| == |db.productInfos| + 1
      && r.productInfos[|db.productInfos|].id == db.nextId < r.nextId
      && Listed(r, r.productInfos[|db.productInfos|], g, shopId)
  {
    var c := CreateInfo(db, shopId, productId, g);
    var r := AddParameters(c.db, c.id, g.parameters);
    AddParametersLinks(c.db, c.id, g.parameters);
    var n := |db.productParameters|;
    forall i | 0 <= i < n ensures r.productParameters[i].productInfoId != c.id {
      assert r.productParameters[i] == r.productParameters[..n][i];
    }
    LinksMatchFromLinksFor(r, n, c.id, g.parameters);
    assert r.productInfos[|db.productInfos|] == ProductInfo(c.id, productId, g.id, g.model, g.price, g.priceRrc, g.quantity, shopId);
    assert r.products == db.products;
  }

  /** A new product info with its parameters keeps product parameters pointing below the key counter. */
  lemma InfoWithParametersLinksBelow(db: Db, shopId: nat, productId: nat, g: Good)
    requires LinksBelow(db)
    ensures var c := CreateInfo(db, shopId, productId, g);
      LinksBelow(AddParameters(c.db, c.id, g.parameters))
  {
    var c := CreateInfo(db, shopId, productId, g);
    var r := AddParameters(c.db, c.id, g.parameters);
    AddParametersLinks(c.db, c.id, g.parameters);
    var n := |db.productParameters|;
    forall i | 0 <= i < |r.productParameters| ensures r.productParameters[i].productInfoId < r.nextId {
      if i < n {
        assert r.productParameters[i] == r.productParameters[..n][i];
      } else {
        var j := i - n;
        assert LinkAt(r.productParameters, n + j, r.parameters, c.id, g.parameters[j]);
      }
    }
  }

  /**
   One good appends exactly one product info, with a fresh key, listed for
   the good; product parameters keep pointing below the key counter.
   */
  lemma AddGoodListed(db: Db, shopId: nat, g: Good)
    requires LinksBelow(db)
    ensures var r := AddGood(db, shopId, g);
      && |r.productInfos| == |db.productInfos| + 1
      && db.nextId <= r.productInfos[|db.productInfos|].id < r.nextId
      && Listed(r, r.productInfos[|db.productInfos|], g, shopId)
      && LinksBelow(r)
  {
    var p := GetOrCreateProduct(db, g.name, g.category);
    GetOrCreateProductFound(db, g.name, g.category);
    assert LinksBelow(p.db);
    InfoWithParametersListed(p.db, shopId, p.id, g);
    InfoWithParametersLinksBelow(p.db, shopId, p.id, g);
  }

  /** Rows appended by later steps link newer product infos, so an older key keeps its product parameters. */
  lemma LinksStable(a: Db, b: Db, infoId: nat)
    requires Grows(a, b) && infoId < a.nextId
    ensures Links(b.productParameters, infoId) == Links(a.productParameters, infoId)
  {
    var n := |a.productParameters|;
    var tail := b.productParameters[n..];
    assert b.productParameters == a.productParameters + tail;
    FilterAppend(a.productParameters, tail, LinkedTo(infoId));
    forall i | 0 <= i < |tail| ensures !LinkedTo(infoId)(tail[i]) {
      assert tail[i] == b.productParameters[n + i];
    }
    FilterNone(tail, LinkedTo(infoId));
  }

  /** A listed product info stays listed while later goods only append rows. */
  lemma ListedStable(a: Db, b: Db, row: ProductInfo, g: Good, shopId: nat)
    requires Grows(a, b) && row.id < a.nextId && Listed(a, row, g, shopId)
    ensures Listed(b, row, g, shopId)
  {
    NamesProductGrows(a.products, b.products, row.productId, g.name, g.category);
    LinksStable(a, b, row.id);
    var ls := Links(b.productParameters, row.id);
    forall j | 0 <= j < |ls| ensures NamesParameter(b.parameters, ls[j].parameterId, g.parameters[j].0) {
      NamesParameterGrows(a.parameters, b.parameters, ls[j].parameterId, g.parameters[j].0);
    }
  }

  /** Rows are only appended, so a product parameter of `a` is still in `b`. */
  lemma GrowsKeepsLinks(a: Db, b: Db, p: ProductParameter)
    requires Grows(a, b) && p in a.productParameters
    ensures p in b.productParameters
  {
    var k :| 0 <= k < |a.productParameters| && a.productParameters[k] == p;
    assert b.productParameters[k] == b.productParameters[..|a.productParameters|][k];
  }

  lemma GrowsReflexive(db: Db)
    ensures Grows(db, db)
  {
    assert db.products[..|db.products|] == db.products;
    assert db.productInfos[..|db.productInfos|] == db.productInfos;
    assert db.parameters[..|db.parameters|] == db.parameters;
    assert db.productParameters[..|db.productParameters|] == db.productParameters;
  }

  /** Product infos `from..` of `db` are listed for `goods`, one each, in order, with keys from `minId` up. */
  ghost predicate ListingFor(db: Db, from: nat, goods: seq<Good>, shopId: nat, minId: nat)
  {
    && |db.productInfos| == from + |goods|
    && forall k :: 0 <= k < |goods| ==> ListedAt(db, from + k, goods[k], shopId, minId)
  }

  /** Product info `i` of `db` is listed for good `g`, with a key from `minId` up. */
  ghost predicate ListedAt(db: Db, i: nat, g: Good, shopId: nat, minId: nat)
  {
    i < |db.productInfos| && db.productInfos[i].id >= minId && Listed(db, db.productInfos[i], g, shopId)
  }

  lemma ListingForCons(d1: Db, r: Db, from: nat, goods: seq<Good>, shopId: nat, minId: nat)
    requires |goods| > 0 && Grows(d1, r) && |d1.productInfos| == from + 1
    requires minId <= d1.productInfos[from].id < d1.nextId
    requires Listed(d1, d1.productInfos[from], goods[0], shopId)
    requires ListingFor(r, from + 1, goods[1..], shopId, d1.nextId)
    ensures ListingFor(r, from, goods, shopId, minId)
  {
    assert r.productInfos[from] == r.productInfos[..|d1.productInfos|][from];
    ListedStable(d1, r, d1.productInfos[from], goods[0], shopId);
    var rest := goods[1..];
    assert |r.productInfos| == from + |goods|;
    assert ListedAt(r, from, goods[0], shopId, minId);
    forall k | 1 <= k < |goods| ensures ListedAt(r, from + k, goods[k], shopId, minId) {
      var j := k - 1;
      assert rest[j] == goods[k] && (from + 1) + j == from + k;
      assert ListedAt(r, (from + 1) + j, rest[j], shopId, d1.nextId);
    }
  }

  /** The goods loop keeps the store valid. */
  lemma {:induction false} AddGoodsValid(db: Db, shopId: nat, goods: seq<Good>)
    requires Valid(db) && shopId in ShopIds(db.shops)
    ensures Valid(AddGoods(db, shopId, goods))
    decreases |goods|
  {
    if |goods| > 0 {
      AddGoodValid(db, shopId, goods[0]);
      var d1 := AddGood(db, shopId, goods[0]);
      assert d1.shops == db.shops;
      AddGoodsValid(d1, shopId, goods[1..]);
    }
  }

  /**
   The goods loop only appends rows, and appends one product info per good,
   in order, each listed for its good with a fresh key.
   */
  lemma {:induction false} AddGoodsListing(db: Db, shopId: nat, goods: seq<Good>)
    requires LinksBelow(db)
    ensures var r := AddGoods(db, shopId, goods);
      && Grows(db, r)
      && ListingFor(r, |db.productInfos|, goods, shopId, db.nextId)
    decreases |goods|
  {
    if |goods| == 0 {
      GrowsReflexive(db);
    } else {
      var d1 := AddGood(db, shopId, goods[0]);
      var r := AddGoods(d1, shopId, goods[1..]);
      assert r == AddGoods(db, shopId, goods);
      AddGoodGrows(db, shopId, goods[0]);
      AddGoodListed(db, shopId, goods[0]);
      AddGoodsListing(d1, shopId, goods[1..]);
      GrowsTransitive(db, d1, r);
      ListingForCons(d1, r, |db.productInfos|, goods, shopId, db.nextId);
    }
  }
}
