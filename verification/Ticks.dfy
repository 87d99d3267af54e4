/** What the listener's streams carry: ticks of one venue's market, and raw feed events that are only recorded. */
module Ticks {
  import opened Texts

  datatype Venue = Skinport | Waxpeer | DMarket

  function VenueName(v: Venue): string {
    match v
    case Skinport => "skinport"
    case Waxpeer => "waxpeer"
    case DMarket => "dmarket"
  }

  lemma VenueNames(v: Venue, w: Venue)
    ensures ':' !in VenueName(v)
    ensures VenueName(v) == VenueName(w) ==> v == w
  {
    assert |VenueName(Skinport)| == 8 && |VenueName(Waxpeer)| == |VenueName(DMarket)| == 7;
    assert VenueName(Waxpeer)[0] != VenueName(DMarket)[0];
  }

  /** A venue without sales of its own (Waxpeer) is judged against, and resold on, another one. */
  function ResaleVenue(v: Venue): Venue {
    if v == Waxpeer then Skinport else v
  }

  /** Every venue resells where it buys but Waxpeer, which resells on Skinport; a resale venue resells on itself. */
  lemma ResaleVenues(v: Venue)
    ensures ResaleVenue(v) == v <==> v != Waxpeer
    ensures ResaleVenue(Waxpeer) == Skinport
    ensures ResaleVenue(ResaleVenue(v)) == ResaleVenue(v)
  {
  }

  datatype Kind = RestSnapshot | Listed | Sold | OtherFeedEvent

  datatype Tick = Tick(
    venue: Venue,
    kind: Kind,
    name: string,
    priceCents: nat,
    timestamp: nat,
    listingId: Option<string>,
    stickers: seq<Option<string>>)  // sticker names; None when the sticker carries no name
  {
    predicate IsRestSnapshot() {
      kind.RestSnapshot?
    }

    predicate FeedsPriceWindow() {
      kind.RestSnapshot? || kind.Listed?
    }
  }
}
