# Seller catalog ingestion and shop state, in Dafny

This project models the two write endpoints of a marketplace's seller API:

- **Catalog ingestion** (`SellerUpdateCatalog.post`). A seller posts the URL of a YAML feed. The feed holds a shop name, categories and goods, and each good has a parameter map. The view first checks the URL. It then brings the store in line with the feed:
  1. It upserts the seller's shop and overwrites its name.
  2. It creates each category that is missing and adds the shop to it.
  3. It deletes the shop's whole listing (its product infos).
  4. For each good, it gets or creates the product, creates a fresh product info, and gets or creates each parameter and links it with its value.
- **Shop state** (`SellerState.post`). The request's `state` text is parsed with Python's `strtobool`. The result is written to the open/closed flag of the seller's shop.

## Structure

- `tables.dfy` (`Tables`) defines the store. Each table is a sequence of rows: shops, categories (each with a set of shop keys), products, product infos, parameters and product parameters. A single key counter hands out fresh keys.
  - `Find` and `Filter` stand for the ORM queries.
  - `Valid` collects the constraints the model assumes and the views keep:
    - one shop per user;
    - distinct primary keys in every table with its own keys (shops, products, product infos, parameters, product parameters);
    - unique category ids, (name, category) product pairs and parameter names;
    - no row that points at a missing row.
- `feed.dfy` (`Feed`) is the parsed feed as a typed value.
- `reconcile.dfy` (`Reconcile`) has one function per ORM call of the ingestion. `Reconciled` composes them, which makes it the specification of the whole ingestion.
- `steps.dfy` (`Steps`) proves what each step guarantees on its own.
- `properties.dfy` (`CatalogProperties`) proves what a whole ingestion guarantees, and what a second ingestion of the same feed does.
- `truth.dfy` (`TruthValues`) models `strtobool`. `toggle.dfy` (`StateToggle`) models the state update.
- `views.dfy` (`ShopViews`) holds the `Store` class.
  - Its sequence fields are updated in place by one method per ORM call, and by the loops over categories, goods and parameters.
  - `UpdateCatalog` and `SetState` are the two views. Each is proved to produce the state the specification functions describe, and to keep `Valid`.

An ingestion overwrites only the shop's name; its key and state are kept (`ReconciledShop`).

## Model

| member | source | states |
|---|---|---|
| ShopViews.Store.UpdateCatalog | shops/views.py:54-109 | A missing or empty `url` gives the `Errors` payload, and a URL the validator rejects gives the `Error` payload with the validator's message. Neither changes the store. Otherwise the result is `Status: True` and the store is the feed reconciled into the old store. The store stays valid in every case. |
| ShopViews.Store.SaveShop | shops/views.py:69-77 | The store becomes the shop upsert of the old store, and the returned key is that shop's key. |
| ShopViews.Store.LinkCategory | shops/views.py:80-86 | One category is created if missing, and the shop is added to it. |
| ShopViews.Store.LinkCategories | shops/views.py:79-86 | The category loop leaves the store as the category fold over the feed describes. |
| ShopViews.Store.DeleteListing | shops/views.py:88 | The shop's product infos are removed, and so are the product parameters that pointed at them. |
| ShopViews.Store.GetOrCreateProduct | shops/views.py:91 | Store and key are those of product get-or-create by (name, category). |
| ShopViews.Store.CreateProductInfo | shops/views.py:93-99 | A product info with the good's fields and a fresh key is appended. |
| ShopViews.Store.GetOrCreateParameter | shops/views.py:102 | Store and key are those of parameter get-or-create by name. |
| ShopViews.Store.CreateProductParameter | shops/views.py:103-105 | One product parameter with a fresh key is appended. |
| ShopViews.Store.AddParameters | shops/views.py:101-105 | The parameter loop of one good leaves the store as the parameter fold describes. |
| ShopViews.Store.AddGood | shops/views.py:91-105 | One good: the product, then the product info, then the parameters. |
| ShopViews.Store.AddGoods | shops/views.py:90-105 | The goods loop leaves the store as the goods fold describes. |
| ShopViews.Store.SetState | shops/views.py:124-134 | A missing or empty `state` gives the `Errors` payload and no change. A truth value gives `Status: True` and sets that value on the user's shops, with no other change. Any other text gives an `Errors` payload carrying the lower-cased text, and no change. The store stays valid. |
| Tables.Find | shops/views.py:69 | Returns the first row matching the query. No earlier row matches, and `None` means no row matches. |
| Tables.Filter | shops/views.py:88 | Keeps exactly the rows that satisfy the query. |
| Reconcile.UpsertShop | shops/views.py:69-77 | Finds the user's shop by user; if there is none, creates one with a fresh key and the default state. Then overwrites the name, and gives the shop's key. |
| Reconcile.AddCategory | shops/views.py:80-86 | Creates the category with the feed's id and name when no category has that id, then adds the shop to the category's shop set. |
| Reconcile.DeleteListing | shops/views.py:88 | Removes the shop's product infos and, by the cascade, the product parameters that point at them. |
| Reconcile.GetOrCreateProduct | shops/views.py:91 | Gives the key of the first product with that (name, category), or appends one with a fresh key. |
| Reconcile.CreateInfo | shops/views.py:93-99 | Appends a product info with a fresh key, the product, the shop, and the good's external id, model, prices and quantity. |
| Reconcile.GetOrCreateParameter | shops/views.py:102 | Gives the key of the parameter with that name, or appends one with a fresh key. |
| Reconcile.CreateLink | shops/views.py:103-105 | Appends a product parameter with a fresh key linking the product info and the parameter, with the value. |
| Reconcile.AddParameter | shops/views.py:101-105 | One (name, value) entry: parameter get-or-create, then the link. |
| Reconcile.AddGood | shops/views.py:90-105 | One good: product get-or-create, the product info, then its parameter entries in order. |
| Reconcile.Reconciled | shops/views.py:69-105 | The whole ingestion: shop upsert, the category loop, the listing delete, then the goods loop, in that order. |
| Reconcile.AddCategories | shops/views.py:79-86 | The category loop changes only the category table. |
| Reconcile.AddParameters | shops/views.py:101-105 | The parameter loop changes only the parameters, the product parameters and the key counter. |
| Reconcile.AddGoods | shops/views.py:90-105 | The goods loop does not change shops or categories. |
| Steps.UpsertShopValid | shops/views.py:69-77 | The shop upsert keeps the store valid, still one shop per user, and returns the key of an existing shop. |
| Steps.UpsertShopOwns | shops/views.py:69-77 | After the upsert, the user owns a shop with the returned key and the feed's name. |
| Steps.AddCategoryValid | shops/views.py:80-86 | Creating or linking a category keeps category ids unique, and every linked shop exists. |
| Steps.AddCategoryLinks | shops/views.py:80-86 | No category is lost, renamed or unlinked. The feed's id then carries the shop, and a new category has the feed's id and name. No shop but this one is added anywhere, and a category with another id keeps its row. |
| Steps.AddCategoriesValid | shops/views.py:79-86 | The category loop keeps the store valid. |
| Steps.AddCategoriesLinks | shops/views.py:79-86 | Membership only grows and names never change. Every feed category carries the shop, and each new category comes from the feed. Only this shop is added: an existing category gains at most this shop, a new one carries it alone. A category whose id is not in the feed keeps its row. |
| Steps.DeleteListingFacts | shops/views.py:88 | The cascade leaves no dangling product parameter, so the store stays valid. The shop ends with an empty listing, and no product parameter points at a deleted product info. Other shops keep their listings and the product parameters of their product infos. |
| Steps.DeleteListingKeepsOthers | shops/views.py:88 | With distinct product-info keys, the delete keeps every other shop's listing and every product parameter of another shop's product info; such a product info has exactly the product parameters it had. |
| Steps.GetOrCreateParameterFound | shops/views.py:102 | Only parameters are appended, and the returned key names a parameter with that name. |
| Steps.GetOrCreateParameterCases | shops/views.py:102 | Get half: a name that exists leaves the store unchanged. Create half: a new name appends one parameter with the fresh key, which is returned. |
| Steps.GetOrCreateParameterValid | shops/views.py:102 | Parameter names stay unique, and the key exists. |
| Steps.CreateLinkValid | shops/views.py:103-105 | A link between an existing product info and an existing parameter keeps the store valid. |
| Steps.AddParameterLinks | shops/views.py:101-105 | One entry appends exactly one product parameter: the new product info, the parameter of the entry's name, and the entry's value. |
| Steps.AddParameterValid | shops/views.py:101-105 | One entry keeps the store valid. |
| Steps.AddParametersValid | shops/views.py:101-105 | The parameter loop keeps the store valid. |
| Steps.AddParametersLinks | shops/views.py:101-105 | The loop appends exactly one product parameter per entry, in order, each with the entry's name and value. |
| Steps.GetOrCreateProductFound | shops/views.py:91 | Only products are appended, and the key names a product with that (name, category). |
| Steps.GetOrCreateProductCases | shops/views.py:91 | Get half: a (name, category) pair that exists leaves the store unchanged. Create half: a new pair appends one product with the fresh key, which is returned. |
| Steps.GetOrCreateProductValid | shops/views.py:91 | (name, category) pairs stay unique, and the key exists. |
| Steps.CreateInfoValid | shops/views.py:93-99 | A product info for an existing product and shop keeps the store valid. |
| Steps.InfoWithParametersListed | shops/views.py:93-105 | The new product info copies the good's fields and names the good's product. Its product parameters match the good's entries. |
| Steps.AddGoodGrows | shops/views.py:90-105 | One good only appends rows. The product parameters it adds point at product-info keys from the old key counter up. |
| Steps.LinksStable | shops/views.py:90-105 | While steps only append rows, a product info with a key below the old counter keeps exactly its product parameters. |
| Steps.AddGoodValid | shops/views.py:90-105 | One good keeps the store valid. |
| Steps.AddGoodListed | shops/views.py:90-105 | One good appends exactly one product info, with a fresh key, listed for the good. |
| Steps.ListedStable | shops/views.py:90-105 | A product info stays listed for its good while later goods are added. |
| Steps.AddGoodsValid | shops/views.py:90-105 | The goods loop keeps the store valid. |
| Steps.AddGoodsListing | shops/views.py:90-105 | The goods loop appends one product info per good, in feed order, each listed for its good with a fresh key. |
| CatalogProperties.ReconciledShops | shops/views.py:69-107 | Only the shop upsert touches the shop table. |
| CatalogProperties.UniqueOwner | shops/views.py:73 | In a valid store, a user owns at most one shop, which is what the single-row `get` relies on. |
| CatalogProperties.OwnedShopIsUpserted | shops/views.py:69-77 | The user's shop after ingestion is the one the upsert found or created. |
| CatalogProperties.ReconciledValid | shops/views.py:69-105 | An ingestion keeps every constraint of the store: one shop per user, distinct primary keys in every table, unique category ids, product pairs and parameter names, and no dangling row. |
| CatalogProperties.UpsertShopRows | shops/views.py:69-77 | An existing shop is renamed in place. A new shop is appended only when the user has none. Other shops do not change. |
| CatalogProperties.ReconciledShop | shops/views.py:69-77 | The user owns exactly one shop, named as in the feed. An existing shop keeps its key and state. A shop is created only when the user had none, and other users' shops are unchanged. |
| CatalogProperties.OwnedShopKept | shops/views.py:69-77 | A user who already owns a shop keeps it under the same key. |
| CatalogProperties.ReconciledCategories | shops/views.py:79-86 | Every feed category carries the shop. No category is dropped, renamed or unlinked, and every new category comes from the feed. No other shop is linked, and a category whose id is not in the feed is unchanged. |
| CatalogProperties.GoodsListing | shops/views.py:90-99 | On an emptied listing, the goods loop gives one product info per good, in order. Other shops' listings are kept. |
| CatalogProperties.GoodsLinks | shops/views.py:88-105 | The goods loop adds no product parameter that points at a deleted product info. |
| CatalogProperties.ReconciledListing | shops/views.py:88-105 | The shop's listing is replaced wholesale: one new product info per good, in order, each copying the good's fields and product, with one product parameter per entry. None of the old rows survive, the deleted rows' parameters are gone, and other shops' listings are unchanged. Each product info of another shop keeps exactly its product parameters: none removed, none added. |
| CatalogProperties.OtherLinksKept | shops/views.py:88-105 | The product parameters of another shop's product infos survive the delete and the goods loop, and no product parameter is added to such a product info. |
| CatalogProperties.ListedStocks | shops/views.py:91-102 | A listed product info shows that its good's product and parameters exist. |
| CatalogProperties.AddParametersReuse | shops/views.py:101-102 | When every named parameter exists, the parameter loop creates no parameter. |
| CatalogProperties.AddGoodsReuse | shops/views.py:90-102 | When every product and parameter exists, the goods loop creates neither. |
| CatalogProperties.ReconciledStocks | shops/views.py:90-105 | After an ingestion, every product and parameter the feed's goods name exists. |
| CatalogProperties.ReconciledReuses | shops/views.py:90-102 | An ingestion whose goods need only existing products and parameters creates neither. |
| CatalogProperties.SameListed | shops/views.py:90-105 | Two product infos listed for the same good over the same products and parameters are equal except for their keys, and they link the same parameters and values. |
| CatalogProperties.SameGoodsSameListing | shops/views.py:90-105 | Two listings of the same goods are equal row by row except for their keys. |
| CatalogProperties.ReingestSameFeed | shops/views.py:54-107 | Ingesting the same feed again creates no product and no parameter, and keeps the user's shop key. The new listing equals the old one except for its keys. |
| TruthValues.Lower | shops/views.py:129 | Lower-cases each character of the text and keeps the length. |
| TruthValues.StrToBool | shops/views.py:129 | A parsed text has 1 to 5 characters. A rejected text is reported lower-cased. |
| TruthValues.Classify | shops/views.py:129 | `strtobool`'s word table: "y", "yes", "t", "true", "on", "1" are true, "n", "no", "f", "false", "off", "0" are false, and any other text is an invalid truth value. |
| TruthValues.LowerIdempotent | shops/views.py:129 | Lower-casing twice is the same as lower-casing once. |
| TruthValues.StrToBoolIgnoresCase | shops/views.py:129 | The parse ignores case. The lower-cased and upper-cased spellings of a text parse as the text does. |
| TruthValues.TrueExamples | shops/views.py:129 | "TRUE", "Yes" and "1" parse to true. |
| TruthValues.FalseExamples | shops/views.py:129 | "OFF", "No" and "0" parse to false. |
| TruthValues.InvalidExample | shops/views.py:129 | "Maybe" is rejected, reported as "maybe". |
| StateToggle.WithState | shops/views.py:129 | Every shop of the user gets the new state, and every other shop is kept. |
| StateToggle.ToggleFacts | shops/views.py:129-130 | The update keeps the store valid. The user's shop gets the new state and keeps its key and name. A user with no shop changes nothing. |

## Left out

- The HTTP fetch and the YAML decoding (shops/views.py:65-66) are left out. `UpdateCatalog` takes `fetch` as a pure function from URL to a typed feed. Transport errors, missing keys, wrong types, and the partial writes they would leave behind (there is no transaction) are not modelled.
- "No fetch happens when validation fails" cannot be observed, because the fetch is a pure parameter. The model proves only that the store is unchanged and the `Error` payload is returned.
- Django's `URLValidator` (shops/views.py:58-61) is a parameter `validate` that returns the rejection message or nothing.
- `url` and `state` are modelled as present-or-absent strings. A non-string request value is not modelled; an empty string counts as absent, as Python's truthiness test does.
- The read-only views `CategoryView`, `ShopView` and `ProductInfoView` (shops/views.py:20-46) are not modelled: they are declarative querysets with no logic of their own. `SellerState.get` (shops/views.py:118-121) is not modelled either: it only serializes a row.
- The permission check `IsShopUser` (shops/permissions.py:7-8) and the URL routing are not modelled. The user is an explicit parameter of each view.
- Concurrent requests are not modelled. Each view runs alone on the store.
- The model file (shops/models.py) is not part of this model. The following are model assumptions:
  - a new shop's `state` defaults to true (`Reconcile.DefaultState`);
  - deleting a product info cascades to its product parameters;
  - one shop per user;
  - (name, category) pairs of products are unique, and parameter names are unique. On a store with duplicates, `get_or_create` raises `MultipleObjectsReturned` part-way through an ingestion. The views require `Valid`, so the model does not cover such stores;
  - every row gets a fresh key from one shared counter instead of per-table auto-increment.
- A product's `category` is not checked against the category table. A dangling category id, which the database might reject, is accepted.
- Prices and quantities are unbounded integers.
- A good's parameter map is a sequence of (name, value) entries in iteration order. The model allows repeated names, which a Python dict would not.
- TruthValues.Lower: lower-cases ASCII letters only. For the words `strtobool` accepts, this decides exactly as Python's `str.lower` does. The error message is the lowered text rather than Python's `invalid truth value '...'` wording.
- ShopViews.Store.SetState: stores the flag as a boolean, where the source writes `strtobool`'s integer 1 or 0 into a boolean field.
