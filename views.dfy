/**
 The two seller views that write to the store: `SellerUpdateCatalog.post`
 (ingest a catalog feed) and `SellerState.post` (set the shop's open/closed
 flag). The store is an object whose tables the views update in place; each
 method's effect is tied to the step functions of `Reconcile` and
 `StateToggle`, whose properties are proved in `CatalogProperties`.
 */
module ShopViews {
  import opened Tables
  import opened Feed
  import Reconcile
  import StateToggle
  import TruthValues
  import CatalogProperties

  datatype Message =
    | MissingArguments        // the request lacks the argument, or it is empty ("not all required arguments given")
    | InvalidUrl(reason: string)   // the URL validator's message
    | InvalidTruthValue(value: string)   // strtobool's error, with the lower-cased text

  /**
   The JSON payload: `{'Status': True}`, `{'Status': False, 'Error': ...}` or
   `{'Status': False, 'Errors': ...}`.
   */
  datatype Response = Ok | Error(message: Message) | Errors(message: Message)

  /**
   The store. `UpdateCatalog` and `SetState` are the two views; they require
   and keep `Valid`. The other methods are the ORM calls and loops inside
   `UpdateCatalog`: each pins the whole new state to its `Reconcile` function,
   and the store's constraints are kept by the view that runs them in order,
   not by each call on its own.
   */
  class Store {
    var shops: seq<Shop>
    var categories: seq<Category>
    var products: seq<Product>
    var productInfos: seq<ProductInfo>
    var parameters: seq<Parameter>
    var productParameters: seq<ProductParameter>
    var nextId: nat

    /** The tables as one value. */
    function Snapshot(): Db
      reads this
    {
      Db(shops, categories, products, productInfos, parameters, productParameters, nextId)
    }

    ghost predicate Valid()
      reads this
    {
      Tables.Valid(Snapshot())
    }

    /** An empty store. */
    constructor ()
      ensures Snapshot() == Db([], [], [], [], [], [], 0)
      ensures Valid()
    {
      shops, categories, products := [], [], [];
      productInfos, parameters, productParameters := [], [], [];
      nextId := 0;
    }

    /** Find the user's shop or create it, then overwrite its name and save it. */
    method SaveShop(user: nat, name: string) returns (shopId: nat)
      modifies this
      ensures Snapshot() == Reconcile.UpsertShop(old(Snapshot()), user, name).db
      ensures shopId == Reconcile.UpsertShop(old(Snapshot()), user, name).id
    {
      var found := Find(shops, ByUser(user));
      if found.None? {
        shopId := nextId;
        shops := shops + [Shop(shopId, user, name, Reconcile.DefaultState)];
        nextId := nextId + 1;
      } else {
        var i := found.value;
        shopId := shops[i].id;
        shops := shops[i := shops[i].(name := name)];
      }
    }

    /** Create the category if its id is absent, then add the shop to it. */
    method LinkCategory(shopId: nat, c: FeedCategory)
      modifies this
      ensures Snapshot() == Reconcile.AddCategory(old(Snapshot()), shopId, c)
    {
      var found := Find(categories, CategoryWithId(c.id));
      if found.None? {
        categories := categories + [Category(c.id, c.name, {shopId})];
      } else {
        var i := found.value;
        categories := categories[i := categories[i].(shops := categories[i].shops + {shopId})];
      }
    }

    /** Delete the shop's product infos and, by the cascade, their product parameters. */
    method DeleteListing(shopId: nat)
      modifies this
      ensures Snapshot() == Reconcile.DeleteListing(old(Snapshot()), shopId)
    {
      var gone := Reconcile.ListedIds(productInfos, shopId);
      productInfos := Filter(productInfos, NotOfShop(shopId));
      productParameters := Filter(productParameters, NotLinkedToAny(gone));
    }

    method GetOrCreateProduct(name: string, categoryId: int) returns (productId: nat)
      modifies this
      ensures Snapshot() == Reconcile.GetOrCreateProduct(old(Snapshot()), name, categoryId).db
      ensures productId == Reconcile.GetOrCreateProduct(old(Snapshot()), name, categoryId).id
    {
      var found := Find(products, ProductWithKey(name, categoryId));
      if found.None? {
        productId := nextId;
        products := products + [Product(productId, name, categoryId)];
        nextId := nextId + 1;
      } else {
        productId := products[found.value].id;
      }
    }

    method CreateProductInfo(shopId: nat, productId: nat, item: Good) returns (infoId: nat)
      modifies this
      ensures Snapshot() == Reconcile.CreateInfo(old(Snapshot()), shopId, productId, item).db
      ensures infoId == Reconcile.CreateInfo(old(Snapshot()), shopId, productId, item).id
    {
      infoId := nextId;
      productInfos := productInfos + [ProductInfo(infoId, productId, item.id, item.model, item.price,
                                                  item.priceRrc, item.quantity, shopId)];
      nextId := nextId + 1;
    }

    method GetOrCreateParameter(name: string) returns (parameterId: nat)
      modifies this
      ensures Snapshot() == Reconcile.GetOrCreateParameter(old(Snapshot()), name).db
      ensures parameterId == Reconcile.GetOrCreateParameter(old(Snapshot()), name).id
    {
      var found := Find(parameters, ParameterNamed(name));
      if found.None? {
        parameterId := nextId;
        parameters := parameters + [Parameter(parameterId, name)];
        nextId := nextId + 1;
      } else {
        parameterId := parameters[found.value].id;
      }
    }

    method CreateProductParameter(infoId: nat, parameterId: nat, value: string)
      modifies this
      ensures Snapshot() == Reconcile.CreateLink(old(Snapshot()), infoId, parameterId, value)
    {
      productParameters := productParameters + [ProductParameter(nextId, infoId, parameterId, value)];
      nextId := nextId + 1;
    }

    /** The category loop: create-or-link every category of the feed, in order. */
    method LinkCategories(shopId: nat, cats: seq<FeedCategory>)
      modifies this
      ensures Snapshot() == Reconcile.AddCategories(old(Snapshot()), shopId, cats)
    {
      ghost var linked := Reconcile.AddCategories(Snapshot(), shopId, cats);
      var i := 0;
      while i < |cats|
        invariant 0 <= i <= |cats|
        invariant Reconcile.AddCategories(Snapshot(), shopId, cats[i..]) == linked
      {
        assert cats[i..][1..] == cats[i + 1..];
        LinkCategory(shopId, cats[i]);
        i := i + 1;
      }
      assert cats[i..] == [];
    }

    /** The parameter loop of one good: get-or-create each parameter and link it with its value. */
    method AddParameters(infoId: nat, entries: seq<(string, string)>)
      modifies this
      ensures Snapshot() == Reconcile.AddParameters(old(Snapshot()), infoId, entries)
    {
      ghost var added := Reconcile.AddParameters(Snapshot(), infoId, entries);
      var j := 0;
      while j < |entries|
        invariant 0 <= j <= |entries|
        invariant Reconcile.AddParameters(Snapshot(), infoId, entries[j..]) == added
      {
        assert entries[j..][1..] == entries[j + 1..];
        var (name, value) := entries[j];
        var parameterId := GetOrCreateParameter(name);
        CreateProductParameter(infoId, parameterId, value);
        j := j + 1;
      }
      assert entries[j..] == [];
    }

    /** One good: its product, its product info for the shop, and its parameters. */
    method AddGood(shopId: nat, item: Good)
      modifies this
      ensures Snapshot() == Reconcile.AddGood(old(Snapshot()), shopId, item)
    {
      var productId := GetOrCreateProduct(item.name, item.category);
      var infoId := CreateProductInfo(shopId, productId, item);
      AddParameters(infoId, item.parameters);
    }

    /** The goods loop, in feed order. */
    method AddGoods(shopId: nat, goods: seq<Good>)
      modifies this
      ensures Snapshot() == Reconcile.AddGoods(old(Snapshot()), shopId, goods)
    {
      ghost var stocked := Reconcile.AddGoods(Snapshot(), shopId, goods);
      var k := 0;
      while k < |goods|
        invariant 0 <= k <= |goods|
        invariant Reconcile.AddGoods(Snapshot(), shopId, goods[k..]) == stocked
      {
        assert goods[k..][1..] == goods[k + 1..];
        AddGood(shopId, goods[k]);
        k := k + 1;
      }
      assert goods[k..] == [];
    }

    /**
     `SellerUpdateCatalog.post`. A missing or empty `url` and a URL the
     validator rejects are reported and leave the store as it was; otherwise
     the fetched feed is reconciled into the store. `validate` gives the
     validator's message for a rejected URL, `fetch` the feed behind a URL.
     */
    method UpdateCatalog(user: nat, url: Option<string>, validate: string -> Option<string>, fetch: string -> Feed)
      returns (resp: Response)
      requires Valid()
      modifies this
      ensures Valid()
      ensures (url.None? || url.value == "") ==> resp == Errors(MissingArguments) && Snapshot() == old(Snapshot())
      ensures url.Some? && url.value != "" && validate(url.value).Some? ==>
                resp == Error(InvalidUrl(validate(url.value).value)) && Snapshot() == old(Snapshot())
      ensures url.Some? && url.value != "" && validate(url.value).None? ==>
                resp == Ok && Snapshot() == Reconcile.Reconciled(old(Snapshot()), user, fetch(url.value))
    {
      if url.None? || url.value == "" {
        return Errors(MissingArguments);
      }
      var problem := validate(url.value);
      if problem.Some? {
        return Error(InvalidUrl(problem.value));
      }
      var data := fetch(url.value);
      CatalogProperties.ReconciledValid(Snapshot(), user, data);
      var shopId := SaveShop(user, data.shop);
      LinkCategories(shopId, data.categories);
      DeleteListing(shopId);
      AddGoods(shopId, data.goods);
      resp := Ok;
    }

    /**
     `SellerState.post`. A missing or empty `state` is reported; a truth value
     sets the state of the user's shop; any other text is reported with
     strtobool's error and changes nothing.
     */
    method SetState(user: nat, state: Option<string>) returns (resp: Response)
      requires Valid()
      modifies this
      ensures Valid()
      ensures (state.None? || state.value == "") ==> resp == Errors(MissingArguments) && Snapshot() == old(Snapshot())
      ensures state.Some? && state.value != "" && TruthValues.StrToBool(state.value).Parsed? ==>
                resp == Ok
                && Snapshot() == old(Snapshot()).(shops := StateToggle.WithState(old(shops), user, TruthValues.StrToBool(state.value).value))
      ensures state.Some? && state.value != "" && TruthValues.StrToBool(state.value).InvalidTruthValue? ==>
                resp == Errors(InvalidTruthValue(TruthValues.StrToBool(state.value).lowered)) && Snapshot() == old(Snapshot())
    {
      if state.None? || state.value == "" {
        return Errors(MissingArguments);
      }
      var parsed := TruthValues.StrToBool(state.value);
      if parsed.InvalidTruthValue? {
        return Errors(InvalidTruthValue(parsed.lowered));
      }
      StateToggle.ToggleFacts(Snapshot(), user, parsed.value);
      shops := StateToggle.WithState(shops, user, parsed.value);
      resp := Ok;
    }
  }
}
