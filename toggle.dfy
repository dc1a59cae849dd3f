/**
 The write half of the seller state view: the open/closed flag of the user's
 shop is set by `Shop.objects.filter(user_id=...).update(state=...)`.
 */
module StateToggle {
  import opened Tables

  /** The shops after the update: every shop of `user` gets `state`, the others are kept. */
  function WithState(shops: seq<Shop>, user: nat, state: bool): (r: seq<Shop>)
    ensures |r| == |shops|
    ensures forall i :: 0 <= i < |shops| ==>
      r[i] == if shops[i].userId == user then shops[i].(state := state) else shops[i]
  {
    if |shops| == 0 then []
    else [if shops[0].userId == user then shops[0].(state := state) else shops[0]] + WithState(shops[1..], user, state)
  }

  /**
   The update keeps the store valid; afterwards the user's shop, if there is
   one, has the new state and its key and name, and when the user has no shop
   nothing changes.
   */
  lemma ToggleFacts(db: Db, user: nat, state: bool)
    requires Valid(db)
    ensures var r := db.(shops := WithState(db.shops, user, state));
      && Valid(r)
      && (forall i :: 0 <= i < |r.shops| && r.shops[i].userId == user ==>
            r.shops[i].state == state && r.shops[i].id == db.shops[i].id && r.shops[i].name == db.shops[i].name)
      && ((forall i :: 0 <= i < |db.shops| ==> db.shops[i].userId != user) ==> r == db)
  {
    var r := db.(shops := WithState(db.shops, user, state));
    SameShopIds(db.shops, r.shops);
    assert ShopsOk(r);
    if forall i :: 0 <= i < |db.shops| ==> db.shops[i].userId != user {
      assert r.shops == db.shops;
    }
  }
}
