/**
 The catalog reconciliation of `SellerUpdateCatalog.post`, step by step, as
 functions from one state of the store to the next. Each step is one ORM call
 of the view: upsert the shop, create-or-link each category, delete the
 shop's listing, and for each good get-or-create its product, create its
 product info, and get-or-create and link each of its parameters.
 */
module Reconcile {
  import opened Tables
  import opened Feed

  /** The `state` a freshly created shop gets (the model's field default). */
  const DefaultState: bool := true

  /** A store after an upsert, with the key of the row that was found or created. */
  datatype Upserted = Upserted(db: Db, id: nat)

  /** Look up the user's shop, create it if absent, and overwrite its name. */
  function UpsertShop(db: Db, user: nat, name: string): Upserted
  {
    match Find(db.shops, ByUser(user))
    case None =>
      Upserted(db.(shops := db.shops + [Shop(db.nextId, user, name, DefaultState)], nextId := db.nextId + 1),
               db.nextId)
    case Some(i) =>
      Upserted(db.(shops := db.shops[i := db.shops[i].(name := name)]), db.shops[i].id)
  }

  /** Create the category with the feed's id and name if absent; add the shop to it. */
  function AddCategory(db: Db, shopId: nat, c: FeedCategory): Db
  {
    match Find(db.categories, CategoryWithId(c.id))
    case None =>
      db.(categories := db.categories + [Category(c.id, c.name, {shopId})])
    case Some(i) =>
      db.(categories := db.categories[i := db.categories[i].(shops := db.categories[i].shops + {shopId})])
  }

  /** The category loop; only the category table changes. */
  function AddCategories(db: Db, shopId: nat, cats: seq<FeedCategory>): (r: Db)
    ensures r.(categories := db.categories) == db
    decreases |cats|
  {
    if |cats| == 0 then db
    else AddCategories(AddCategory(db, shopId, cats[0]), shopId, cats[1..])
  }

  /** Keys of the shop's product infos. */
  function ListedIds(infos: seq<ProductInfo>, shopId: nat): set<nat>
  {
    set r | r in infos && r.shopId == shopId :: r.id
  }

  /** Delete the shop's product infos, and with them (on-delete cascade) their product parameters. */
  function DeleteListing(db: Db, shopId: nat): Db
  {
    db.(productInfos := Filter(db.productInfos, NotOfShop(shopId)),
        productParameters := Filter(db.productParameters, NotLinkedToAny(ListedIds(db.productInfos, shopId))))
  }

  /** `Product.objects.get_or_create(name=..., category_id=...)`. */
  function GetOrCreateProduct(db: Db, name: string, categoryId: int): Upserted
  {
    match Find(db.products, ProductWithKey(name, categoryId))
    case Some(i) => Upserted(db, db.products[i].id)
    case None =>
      Upserted(db.(products := db.products + [Product(db.nextId, name, categoryId)], nextId := db.nextId + 1),
               db.nextId)
  }

  /** `ProductInfo.objects.create(...)` for one good of the feed. */
  function CreateInfo(db: Db, shopId: nat, productId: nat, g: Good): Upserted
  {
    var info := ProductInfo(db.nextId, productId, g.id, g.model, g.price, g.priceRrc, g.quantity, shopId);
    Upserted(db.(productInfos := db.productInfos + [info], nextId := db.nextId + 1), db.nextId)
  }

  /** `Parameter.objects.get_or_create(name=...)`. */
  function GetOrCreateParameter(db: Db, name: string): Upserted
  {
    match Find(db.parameters, ParameterNamed(name))
    case Some(i) => Upserted(db, db.parameters[i].id)
    case None =>
      Upserted(db.(parameters := db.parameters + [Parameter(db.nextId, name)], nextId := db.nextId + 1),
               db.nextId)
  }

  /** `ProductParameter.objects.create(...)`. */
  function CreateLink(db: Db, infoId: nat, parameterId: nat, value: string): Db
  {
    db.(productParameters := db.productParameters + [ProductParameter(db.nextId, infoId, parameterId, value)],
        nextId := db.nextId + 1)
  }

  /** One (name, value) entry of a good's parameter mapping. */
  function AddParameter(db: Db, infoId: nat, entry: (string, string)): Db
  {
    var p := GetOrCreateParameter(db, entry.0);
    CreateLink(p.db, infoId, p.id, entry.1)
  }

  /** The parameter loop; only parameters, product parameters and the key counter change. */
  function AddParameters(db: Db, infoId: nat, entries: seq<(string, string)>): (r: Db)
    ensures r.(parameters := db.parameters, productParameters := db.productParameters, nextId := db.nextId) == db
    decreases |entries|
  {
    if |entries| == 0 then db
    else AddParameters(AddParameter(db, infoId, entries[0]), infoId, entries[1..])
  }

  /** One good of the feed. */
  function AddGood(db: Db, shopId: nat, g: Good): Db
  {
    var p := GetOrCreateProduct(db, g.name, g.category);
    var info := CreateInfo(p.db, shopId, p.id, g);
    AddParameters(info.db, info.id, g.parameters)
  }

  /** The goods loop; shops and categories do not change. */
  function AddGoods(db: Db, shopId: nat, goods: seq<Good>): (r: Db)
    ensures r.shops == db.shops && r.categories == db.categories
    decreases |goods|
  {
    if |goods| == 0 then db
    else AddGoods(AddGood(db, shopId, goods[0]), shopId, goods[1..])
  }

  /** The store after a feed has been ingested for `user`. */
  function Reconciled(db: Db, user: nat, feed: Feed): Db
  {
    var shop := UpsertShop(db, user, feed.shop);
    var linked := AddCategories(shop.db, shop.id, feed.categories);
    AddGoods(DeleteListing(linked, shop.id), shop.id, feed.goods)
  }
}
