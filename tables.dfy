/**
 The persisted store behind the seller views: one sequence of rows per table
 (Shop, Category, Product, ProductInfo, Parameter, ProductParameter) and one
 identity counter that hands out fresh primary keys. Query helpers (`Find`,
 `Filter`) stand for the ORM's `filter`/`get`/`exists` lookups, and `Valid`
 collects the constraints the model assumes and the views keep: one shop per
 user, unique category ids, unique (name, category) products, unique parameter
 names, distinct primary keys, and no row pointing at a missing row.
 */
module Tables {

  datatype Option<T> = None | Some(value: T)

  /** A seller's shop; `state` is the open/closed flag. */
  datatype Shop = Shop(id: nat, userId: nat, name: string, state: bool)

  /** A category; its id comes from the feed, `shops` is the many-to-many link. */
  datatype Category = Category(id: int, name: string, shops: set<nat>)

  /** A product, identified by its (name, category) pair. */
  datatype Product = Product(id: nat, name: string, categoryId: int)

  /** One shop's offer of a product. */
  datatype ProductInfo = ProductInfo(id: nat, productId: nat, externalId: int, model: string,
                                     price: int, priceRrc: int, quantity: int, shopId: nat)

  /** A global named attribute such as "color". */
  datatype Parameter = Parameter(id: nat, name: string)

  /** The value of one parameter for one product info. */
  datatype ProductParameter = ProductParameter(id: nat, productInfoId: nat, parameterId: nat, value: string)

  datatype Db = Db(shops: seq<Shop>, categories: seq<Category>, products: seq<Product>,
                   productInfos: seq<ProductInfo>, parameters: seq<Parameter>,
                   productParameters: seq<ProductParameter>, nextId: nat)

  /** Index of the first row satisfying `p`, as a `filter(...).first()` query. */
  function Find<T>(s: seq<T>, p: T -> bool): (r: Option<nat>)
    ensures r.Some? ==> r.value < |s| && p(s[r.value])
    ensures r.Some? ==> forall i :: 0 <= i < r.value ==> !p(s[i])
    ensures r.None? ==> forall i :: 0 <= i < |s| ==> !p(s[i])
  {
    if |s| == 0 then None
    else if p(s[0]) then Some(0)
    else match Find(s[1..], p)
      case None => None
      case Some(i) => Some(i + 1)
  }

  /** The rows satisfying `keep`, in table order. */
  function Filter<T(!new)>(s: seq<T>, keep: T -> bool): (r: seq<T>)
    ensures |r| <= |s|
    ensures forall x :: x in r <==> x in s && keep(x)
  {
    if |s| == 0 then []
    else (if keep(s[0]) then [s[0]] else []) + Filter(s[1..], keep)
  }

  lemma {:induction false} FilterAppend<T(!new)>(a: seq<T>, b: seq<T>, keep: T -> bool)
    ensures Filter(a + b, keep) == Filter(a, keep) + Filter(b, keep)
  {
    if |a| == 0 {
      assert a + b == b;
    } else {
      assert (a + b)[1..] == a[1..] + b;
      FilterAppend(a[1..], b, keep);
    }
  }

  lemma {:induction false} FilterAll<T(!new)>(s: seq<T>, keep: T -> bool)
    requires forall i :: 0 <= i < |s| ==> keep(s[i])
    ensures Filter(s, keep) == s
  {
    if |s| > 0 {
      FilterAll(s[1..], keep);
    }
  }

  lemma FilterNone<T(!new)>(s: seq<T>, keep: T -> bool)
    requires forall i :: 0 <= i < |s| ==> !keep(s[i])
    ensures Filter(s, keep) == []
  {
  }

  /** Filtering by a weaker predicate first does not change a later, stronger filter. */
  lemma {:induction false} FilterSubsumed<T(!new)>(s: seq<T>, weak: T -> bool, strong: T -> bool)
    requires forall x :: strong(x) ==> weak(x)
    ensures Filter(Filter(s, weak), strong) == Filter(s, strong)
  {
    if |s| > 0 {
      FilterSubsumed(s[1..], weak, strong);
      var w := Filter(s, weak);
      if weak(s[0]) {
        assert w == [s[0]] + Filter(s[1..], weak);
        assert w[0] == s[0] && w[1..] == Filter(s[1..], weak);
        assert Filter(w, strong) == (if strong(s[0]) then [s[0]] else []) + Filter(w[1..], strong);
      } else {
        assert w == Filter(s[1..], weak);
      }
    }
  }

  // Named predicates, so that every use of a query is the same term.

  function ByUser(user: nat): Shop -> bool { (s: Shop) => s.userId == user }
  function CategoryWithId(id: int): Category -> bool { (c: Category) => c.id == id }
  function ProductWithKey(name: string, categoryId: int): Product -> bool
  { (p: Product) => p.name == name && p.categoryId == categoryId }
  function ParameterNamed(name: string): Parameter -> bool { (p: Parameter) => p.name == name }
  function OfShop(shopId: nat): ProductInfo -> bool { (r: ProductInfo) => r.shopId == shopId }
  function NotOfShop(shopId: nat): ProductInfo -> bool { (r: ProductInfo) => r.shopId != shopId }
  function LinkedTo(infoId: nat): ProductParameter -> bool { (p: ProductParameter) => p.productInfoId == infoId }
  function NotLinkedToAny(ids: set<nat>): ProductParameter -> bool { (p: ProductParameter) => p.productInfoId !in ids }

  /** `ProductInfo.objects.filter(shop_id=shopId)`. */
  function Listing(infos: seq<ProductInfo>, shopId: nat): seq<ProductInfo>
  {
    Filter(infos, OfShop(shopId))
  }

  /** The ProductParameter rows of one product info. */
  function Links(links: seq<ProductParameter>, infoId: nat): seq<ProductParameter>
  {
    Filter(links, LinkedTo(infoId))
  }

  ghost function ShopIds(shops: seq<Shop>): set<nat> { set s | s in shops :: s.id }
  ghost function ProductIds(products: seq<Product>): set<nat> { set p | p in products :: p.id }
  ghost function InfoIds(infos: seq<ProductInfo>): set<nat> { set r | r in infos :: r.id }
  ghost function ParameterIds(parameters: seq<Parameter>): set<nat> { set p | p in parameters :: p.id }

  /** Two shop tables whose rows have the same keys at the same places have the same key set. */
  lemma SameShopIds(a: seq<Shop>, b: seq<Shop>)
    requires |a| == |b| && forall i :: 0 <= i < |a| ==> a[i].id == b[i].id
    ensures ShopIds(a) == ShopIds(b)
  {
    forall x | x in ShopIds(a) ensures x in ShopIds(b) {
      var s :| s in a && s.id == x;
      var k :| 0 <= k < |a| && a[k] == s;
      assert b[k] in b;
    }
    forall x | x in ShopIds(b) ensures x in ShopIds(a) {
      var s :| s in b && s.id == x;
      var k :| 0 <= k < |b| && b[k] == s;
      assert a[k] in a;
    }
  }

  /** Each user owns at most one shop; shop keys are fresh and distinct. */
  ghost predicate ShopsOk(db: Db)
  {
    && (forall i :: 0 <= i < |db.shops| ==> db.shops[i].id < db.nextId)
    && (forall i, j :: 0 <= i < j < |db.shops| ==>
          db.shops[i].userId != db.shops[j].userId && db.shops[i].id != db.shops[j].id)
  }

  /** Category ids are unique and every linked shop exists. */
  ghost predicate CategoriesOk(db: Db)
  {
    && (forall i, j :: 0 <= i < j < |db.categories| ==> db.categories[i].id != db.categories[j].id)
    && (forall i :: 0 <= i < |db.categories| ==> db.categories[i].shops <= ShopIds(db.shops))
  }

  /** Products have fresh distinct keys and distinct (name, category) pairs. */
  ghost predicate ProductsOk(db: Db)
  {
    && (forall i :: 0 <= i < |db.products| ==> db.products[i].id < db.nextId)
    && (forall i, j :: 0 <= i < j < |db.products| ==>
          db.products[i].id != db.products[j].id
          && (db.products[i].name, db.products[i].categoryId) != (db.products[j].name, db.products[j].categoryId))
  }

  /** Every product info has a fresh key and points at an existing product and shop; keys are distinct. */
  ghost predicate InfosOk(db: Db)
  {
    && (forall i :: 0 <= i < |db.productInfos| ==>
          && db.productInfos[i].id < db.nextId
          && db.productInfos[i].productId in ProductIds(db.products)
          && db.productInfos[i].shopId in ShopIds(db.shops))
    && DistinctInfoIds(db.productInfos)
  }

  /** No two rows of `s` share a key. */
  ghost predicate KeysDistinct<T>(s: seq<T>, key: T -> nat)
  {
    forall i, j :: 0 <= i < j < |s| ==> key(s[i]) != key(s[j])
  }

  function InfoKey(r: ProductInfo): nat { r.id }
  function LinkKey(p: ProductParameter): nat { p.id }

  /** No two product infos share a primary key. */
  ghost predicate DistinctInfoIds(infos: seq<ProductInfo>)
  {
    KeysDistinct(infos, InfoKey)
  }

  /** No two product parameters share a primary key. */
  ghost predicate DistinctLinkIds(links: seq<ProductParameter>)
  {
    KeysDistinct(links, LinkKey)
  }

  /** A row of `Filter(s, keep)` after position 0 is a row of `s[1..]`. */
  lemma FilterTailFrom<T(!new)>(s: seq<T>, keep: T -> bool, j: nat)
    requires 0 < |s| && keep(s[0]) && 0 < j < |Filter(s, keep)|
    ensures Filter(s, keep)[j] in s[1..]
  {
    assert Filter(s, keep) == [s[0]] + Filter(s[1..], keep);
    assert Filter(s, keep)[j] == Filter(s[1..], keep)[j - 1];
  }

  /** Deleting rows keeps the keys of the rest distinct. */
  lemma {:induction false} FilterKeysDistinct<T(!new)>(s: seq<T>, keep: T -> bool, key: T -> nat)
    requires KeysDistinct(s, key)
    ensures KeysDistinct(Filter(s, keep), key)
  {
    if |s| > 0 {
      FilterKeysDistinct(s[1..], keep, key);
      var r := Filter(s, keep);
      if keep(s[0]) {
        forall i, j | 0 <= i < j < |r| ensures key(r[i]) != key(r[j]) {
          FilterTailFrom(s, keep, j);
          var k :| 0 <= k < |s[1..]| && s[1..][k] == r[j];
          assert s[k + 1] == r[j];
          if i > 0 {
            assert r[i] == Filter(s[1..], keep)[i - 1] && r[j] == Filter(s[1..], keep)[j - 1];
          }
        }
      } else {
        assert r == Filter(s[1..], keep);
      }
    }
  }

  /** Parameters have fresh distinct keys and distinct names. */
  ghost predicate ParametersOk(db: Db)
  {
    && (forall i :: 0 <= i < |db.parameters| ==> db.parameters[i].id < db.nextId)
    && (forall i, j :: 0 <= i < j < |db.parameters| ==>
          db.parameters[i].id != db.parameters[j].id && db.parameters[i].name != db.parameters[j].name)
  }

  /** Every product parameter has a fresh key and points at an existing product info and parameter; keys are distinct. */
  ghost predicate LinksOk(db: Db)
  {
    && (forall i :: 0 <= i < |db.productParameters| ==>
          && db.productParameters[i].id < db.nextId
          && db.productParameters[i].productInfoId in InfoIds(db.productInfos)
          && db.productParameters[i].parameterId in ParameterIds(db.parameters))
    && DistinctLinkIds(db.productParameters)
  }

  ghost predicate Valid(db: Db)
  {
    ShopsOk(db) && CategoriesOk(db) && ProductsOk(db) && InfosOk(db) && ParametersOk(db) && LinksOk(db)
  }
}
