/** The property list filter of frontend/src/pages/home.js: a property is
    shown when its address contains the search term, ignoring case, and
    when its room count equals the room filter, if one is set. */
module HomePage {
  import opened Collections
  import opened Text

  datatype Card = Card(address: string, rooms: int)

  predicate MatchesAddress(p: Card, term: string) {
    Contains(ToLower(p.address), ToLower(term))
  }

  /** `roomFilter ? prop.rooms === Number(roomFilter) : true`; a filter that
      `Number` reads as NaN matches nothing. */
  predicate MatchesRooms(p: Card, roomFilter: string) {
    roomFilter == [] || NumberOf(roomFilter) == Some(p.rooms)
  }

  function Shown(term: string, roomFilter: string): Card -> bool {
    (p: Card) => MatchesAddress(p, term) && MatchesRooms(p, roomFilter)
  }

  /** `filteredProperties`. */
  function FilteredProperties(properties: seq<Card>, term: string, roomFilter: string): (r: seq<Card>)
    ensures IsSubsequence(r, properties)
    ensures forall p :: p in r <==> p in properties && MatchesAddress(p, term) && MatchesRooms(p, roomFilter)
  {
    var r := Filter(properties, Shown(term, roomFilter));
    FilterIsSubsequence(properties, Shown(term, roomFilter));
    forall p ensures p in r <==> p in properties && Shown(term, roomFilter)(p) {
      FilterMembership(properties, Shown(term, roomFilter), p);
    }
    r
  }

  /** With an empty term and no room filter every property is shown. */
  lemma NoFilterShowsAll(properties: seq<Card>)
    ensures FilteredProperties(properties, "", "") == properties
  {
    forall i | 0 <= i < |properties| ensures Shown("", "")(properties[i]) {
      assert OccursAt(ToLower(properties[i].address), ToLower(""), 0);
    }
    FilterKeepsAll(properties, Shown("", ""));
  }

  /** The search term matches regardless of case: an upper-case term finds
      a lower-case address. */
  lemma TermIgnoresCase(p: Card, term: string)
    ensures MatchesAddress(p, ToLower(term)) <==> MatchesAddress(p, term)
  {
    ToLowerIdempotent(term);
  }

  /** A blank room filter other than `""` is read by `Number` as 0. */
  lemma BlankRoomFilter(p: Card, roomFilter: string)
    requires roomFilter != [] && IsBlank(roomFilter)
    ensures MatchesRooms(p, roomFilter) <==> p.rooms == 0
  {
  }
}
