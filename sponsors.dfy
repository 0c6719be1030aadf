/**
 * Sponsor tiers: an event's tiers each have a fixed price and a capacity, and
 * sponsors who pay the exact price are appended to the tier's contribution list.
 * Storage keys are (event id, tier id); a panic is returned as `Err` with its
 * message, and a failed call writes nothing.
 */
module Sponsors {
  import opened Wrappers
  import Types

  type Address = Types.Address
  type TierKey = (string, string)

  const U32Max: int := 0xFFFF_FFFF
  newtype u32 = x: int | 0 <= x <= U32Max

  /** `saturating_add` on 32-bit unsigned integers. */
  function SaturatingAdd(a: u32, b: u32): (r: u32)
    ensures a as int + b as int <= U32Max ==> r as int == a as int + b as int
    ensures a as int + b as int > U32Max ==> r as int == U32Max
    ensures a <= r && b <= r
  {
    if a as int + b as int > U32Max then U32Max as u32 else a + b
  }

  datatype Tier = Tier(price: int, maxSponsors: u32, sponsorCount: u32)

  const TierNotFoundMsg: string := "tier not found"
  const TierFullMsg: string := "tier is full"
  const IncorrectAmountMsg: string := "incorrect amount"

  class SponsorRegistry {
    var tiers: map<TierKey, Tier>
    var contributions: map<TierKey, seq<Address>>

    constructor()
      ensures tiers == map[] && contributions == map[]
    {
      tiers, contributions := map[], map[];
    }

    /** The recorded sponsors of a tier, empty when nothing was recorded. */
    function ListOf(key: TierKey): (list: seq<Address>)
      reads this`contributions
      ensures key in contributions ==> list == contributions[key]
      ensures key !in contributions ==> list == []
    {
      if key in contributions then contributions[key] else []
    }

    /**
     * Every tier's count stays within its capacity and never exceeds the number of
     * recorded sponsors (re-registering a tier resets the count but keeps the list).
     */
    predicate WithinCapacity()
      reads this`tiers, this`contributions
    {
      forall k :: k in tiers ==>
        tiers[k].sponsorCount <= tiers[k].maxSponsors && tiers[k].sponsorCount as int <= |ListOf(k)|
    }

    /** Creates or replaces a tier with no sponsors counted; any recorded list is kept. */
    method RegisterSponsorTier(eventId: string, tierId: string, price: int, maxSponsors: u32)
      modifies this`tiers
      ensures tiers == old(tiers)[(eventId, tierId) := Tier(price, maxSponsors, 0)]
      ensures old(WithinCapacity()) ==> WithinCapacity()
    {
      tiers := tiers[(eventId, tierId) := Tier(price, maxSponsors, 0)];
    }

    /** Records a sponsor who pays the tier's exact price while the tier has room. */
    method Contribute(eventId: string, tierId: string, sponsor: Address, amount: int) returns (r: Result<(), string>)
      modifies this`tiers, this`contributions
      ensures var key := (eventId, tierId);
        r == (if key !in old(tiers) then Err(TierNotFoundMsg)
              else if old(tiers[key]).sponsorCount >= old(tiers[key]).maxSponsors then Err(TierFullMsg)
              else if amount != old(tiers[key]).price then Err(IncorrectAmountMsg)
              else Ok(()))
      ensures r.Err? ==> unchanged(this`tiers, this`contributions)
      ensures r.Ok? ==> var key := (eventId, tierId); var t := old(tiers[key]);
        && tiers == old(tiers)[key := t.(sponsorCount := t.sponsorCount + 1)]
        && contributions == old(contributions)[key := old(ListOf(key)) + [sponsor]]
      ensures old(WithinCapacity()) ==> WithinCapacity()
    {
      var key := (eventId, tierId);
      if key !in tiers {
        return Err(TierNotFoundMsg);
      }
      var tier := tiers[key];
      if tier.sponsorCount >= tier.maxSponsors {
        return Err(TierFullMsg);
      }
      if amount != tier.price {
        return Err(IncorrectAmountMsg);
      }
      var list := ListOf(key);
      contributions := contributions[key := list + [sponsor]];
      tiers := tiers[key := tier.(sponsorCount := SaturatingAdd(tier.sponsorCount, 1))];
      return Ok(());
    }

    /** The number of recorded sponsors of a tier and the list itself. */
    function GetTierContributions(eventId: string, tierId: string): (r: (nat, seq<Address>))
      reads this`contributions
      ensures r.0 == |r.1|
      ensures r.1 == ListOf((eventId, tierId))
    {
      var list := ListOf((eventId, tierId));
      (|list|, list)
    }
  }
}
