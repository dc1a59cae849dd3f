/**
 The seller's catalog feed after it has been fetched and decoded: the shop's
 name, the categories it uses and its goods. A good's `parameters` are the
 entries of the decoded mapping in iteration order; the sequence type does not
 require their names to be distinct.
 */
module Feed {

  datatype FeedCategory = FeedCategory(id: int, name: string)

  datatype Good = Good(id: int, category: int, model: string, name: string,
                       price: int, priceRrc: int, quantity: int,
                       parameters: seq<(string, string)>)

  datatype Feed = Feed(shop: string, categories: seq<FeedCategory>, goods: seq<Good>)
}
