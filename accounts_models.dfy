/** The seller account (accounts/models.py): a profile owned by exactly one
    user, carrying the seller's integral credit. */
module AccountsModels {
  import opened Base

  type UserId = nat

  /** A seller's primary key: its position in the sellers table. */
  type SellerId = nat

  datatype Seller = Seller(user: UserId, credit: int)

  /** `credit` defaults to 0 when a profile is created. */
  const DefaultCredit: int := 0

  /** The user-to-profile link is one-to-one: no user owns two profiles. */
  ghost predicate ProfilesUnique(sellers: seq<Seller>) {
    forall i, j | 0 <= i < j < |sellers| :: sellers[i].user != sellers[j].user
  }

  /** The caller's seller profile, if the user has one (`user.seller_profile`,
      or `hasattr(user, 'seller_profile')` when it is only tested). */
  function ProfileOf(sellers: seq<Seller>, user: UserId): (r: Option<SellerId>)
    ensures r.Some? ==> r.value < |sellers| && sellers[r.value].user == user
    ensures r.None? ==> forall i | 0 <= i < |sellers| :: sellers[i].user != user
    decreases |sellers|
  {
    if sellers == [] then None
    else if sellers[|sellers| - 1].user == user then Some(|sellers| - 1)
    else ProfileOf(sellers[..|sellers| - 1], user)
  }

  /** Sum of all sellers' credit. */
  function TotalCredit(sellers: seq<Seller>): int
    decreases |sellers|
  {
    if sellers == [] then 0
    else TotalCredit(sellers[..|sellers| - 1]) + sellers[|sellers| - 1].credit
  }

  /** Changing one seller's credit changes the total by exactly the difference. */
  lemma {:induction false} TotalCreditUpdate(sellers: seq<Seller>, i: nat, s: Seller)
    requires i < |sellers|
    ensures TotalCredit(sellers[i := s]) == TotalCredit(sellers) - sellers[i].credit + s.credit
    decreases |sellers|
  {
    var n := |sellers| - 1;
    if i < n {
      assert sellers[i := s][..n] == sellers[..n][i := s];
      TotalCreditUpdate(sellers[..n], i, s);
    } else {
      assert sellers[i := s][..n] == sellers[..n];
    }
  }

  /** Appending a profile adds its credit to the total. */
  lemma TotalCreditAppend(sellers: seq<Seller>, s: Seller)
    ensures TotalCredit(sellers + [s]) == TotalCredit(sellers) + s.credit
  {
    assert (sellers + [s])[..|sellers|] == sellers;
  }
}
