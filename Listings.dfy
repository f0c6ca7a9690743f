/** The listing collection as values: what a listing holds, how a create
    request becomes a listing, how a removal request is decided, and what the
    store starts from. The class in module Store applies these to its state. */
module Listings {
  import Decimal

  datatype Option<+T> = None | Some(value: T)

  /** One marketplace offer, as held in the collection, written to the data
      file, and sent as the body of a create request. A JSON object may lack
      any field, so the fields are options (`None` is `undefined`); `coin`
      records only whether a truthy coin object is present. */
  datatype Listing = Listing(
    globalId: Option<string>,
    coin: bool,
    price: Option<real>,
    sellerId: Option<string>,
    sellerName: Option<string>,
    timestamp: Option<int>)

  // ---------------------------------------------------------------------------
  // Identifiers

  const IdPrefix: string := "global_"

  /** How a template literal renders a possibly missing string field. */
  function Interpolated(field: Option<string>): string {
    match field
    case Some(text) => text
    case None => "undefined"
  }

  /** `global_<sellerId>_<millis>`. */
  function GlobalId(seller: string, millis: nat): string {
    IdPrefix + seller + "_" + Decimal.Format(millis)
  }

  /** Position of the last `c` in `s`, or -1. */
  function LastIndexOf(s: string, c: char): (r: int)
    ensures -1 <= r < |s|
    ensures r == -1 <==> forall k :: 0 <= k < |s| ==> s[k] != c
    ensures 0 <= r ==> s[r] == c && forall k :: r < k < |s| ==> s[k] != c
  {
    if s == [] then -1
    else if s[|s| - 1] == c then |s| - 1
    else LastIndexOf(s[..|s| - 1], c)
  }

  /** Reads a generated identifier back into the seller text and the clock
      reading it was made from; `None` for every other string. */
  function SplitGlobalId(id: string): Option<(string, nat)> {
    if |id| < |IdPrefix| || id[..|IdPrefix|] != IdPrefix then None
    else
      var rest := id[|IdPrefix|..];
      var u := LastIndexOf(rest, '_');
      if u < 0 || !Decimal.IsCanonical(rest[u + 1..]) then None
      else Some((rest[..u], Decimal.Parse(rest[u + 1..])))
  }

  /** The seller and the clock reading can always be read back from an identifier. */
  lemma SplitGlobalIdRoundTrip(seller: string, millis: nat)
    ensures SplitGlobalId(GlobalId(seller, millis)) == Some((seller, millis))
  {
    var digits := Decimal.Format(millis);
    var rest := seller + "_" + digits;
    var id := GlobalId(seller, millis);
    assert id[..|IdPrefix|] == IdPrefix && id[|IdPrefix|..] == rest;
    var u := LastIndexOf(rest, '_');
    assert rest[|seller|] == '_';
    assert u == |seller| by {
      forall k | |seller| < k < |rest| ensures rest[k] != '_' {
        assert rest[k] == digits[k - |seller| - 1];
      }
    }
    assert rest[..u] == seller;
    assert rest[u + 1..] == digits;
    Decimal.ParseFormat(millis);
  }

  /** The only strings the splitter accepts are generated identifiers. */
  lemma SplitGlobalIdSound(id: string, seller: string, millis: nat)
    requires SplitGlobalId(id) == Some((seller, millis))
    ensures id == GlobalId(seller, millis)
  {
    var rest := id[|IdPrefix|..];
    var u := LastIndexOf(rest, '_');
    var digits := rest[u + 1..];
    assert 0 <= u && Decimal.IsCanonical(digits);
    assert seller == rest[..u] && millis == Decimal.Parse(digits);
    Decimal.FormatParse(digits);
    calc {
      GlobalId(seller, millis);
      IdPrefix + (rest[..u] + "_" + digits);
      { assert rest == rest[..u] + "_" + digits; }
      id[..|IdPrefix|] + rest;
      id;
    }
  }

  /** Identifiers from different (seller, millisecond) pairs never collide. */
  lemma GlobalIdInjective(s1: string, t1: nat, s2: string, t2: nat)
    ensures GlobalId(s1, t1) == GlobalId(s2, t2) <==> s1 == s2 && t1 == t2
  {
    SplitGlobalIdRoundTrip(s1, t1);
    SplitGlobalIdRoundTrip(s2, t2);
  }

  // ---------------------------------------------------------------------------
  // Create

  /** JavaScript truthiness of the fields the create handler checks. */
  predicate TruthyText(field: Option<string>) {
    field.Some? && field.value != ""
  }

  predicate TruthyNumber(field: Option<real>) {
    field.Some? && field.value != 0.0
  }

  predicate HasRequiredFields(l: Listing) {
    l.coin && TruthyNumber(l.price) && TruthyText(l.sellerId)
  }

  /** The request body spread into a new object whose identifier and timestamp
      the store assigns. server.js reads the clock twice, once for each. */
  function Stamp(body: Listing, idTime: nat, stampTime: nat): Listing {
    body.(globalId := Some(GlobalId(Interpolated(body.sellerId), idTime)), timestamp := Some(stampTime))
  }

  datatype CreateOutcome = Created(item: Listing) | InvalidInput

  datatype CreateResult = CreateResult(outcome: CreateOutcome, after: seq<Listing>)

  /** Create: the outcome and the collection afterwards. */
  function AddListing(s: seq<Listing>, body: Listing, idTime: nat, stampTime: nat): (r: CreateResult)
    ensures r.outcome == InvalidInput <==>
      !body.coin || body.price in {None, Some(0.0)} || body.sellerId in {None, Some("")}
    ensures r.outcome == InvalidInput ==> r.after == s
    ensures r.outcome.Created? ==>
      && |r.after| == |s| + 1
      && r.after[..|s|] == s
      && r.after[|s|] == r.outcome.item
      && r.outcome.item.globalId == Some("global_" + body.sellerId.value + "_" + Decimal.Format(idTime))
      && r.outcome.item.timestamp == Some(stampTime)
      && r.outcome.item.(globalId := body.globalId, timestamp := body.timestamp) == body
  {
    var item := Stamp(body, idTime, stampTime);
    if HasRequiredFields(item) then CreateResult(Created(item), s + [item])
    else CreateResult(InvalidInput, s)
  }

  // ---------------------------------------------------------------------------
  // Remove

  predicate HasId(l: Listing, id: string) {
    l.globalId == Some(id)
  }

  /** `i` is the position `findIndex` reports for `id`. */
  predicate IsFirstMatch(s: seq<Listing>, id: string, i: int) {
    0 <= i < |s| && HasId(s[i], id) && forall k :: 0 <= k < i ==> !HasId(s[k], id)
  }

  /** `Array.prototype.findIndex` with the predicate `globalId === id`. */
  function FindIndex(s: seq<Listing>, id: string): (r: int)
    ensures -1 <= r < |s|
    ensures r == -1 <==> forall k :: 0 <= k < |s| ==> !HasId(s[k], id)
    ensures 0 <= r ==> IsFirstMatch(s, id, r)
  {
    if s == [] then -1
    else if HasId(s[0], id) then 0
    else
      var r := FindIndex(s[1..], id);
      if r == -1 then -1 else r + 1
  }

  /** `splice(i, 1)`: drops position i and keeps the rest in order. */
  function Splice(s: seq<Listing>, i: nat): (r: seq<Listing>)
    requires i < |s|
    ensures |r| == |s| - 1
    ensures forall k :: 0 <= k < i ==> r[k] == s[k]
    ensures forall k :: i <= k < |r| ==> r[k] == s[k + 1]
  {
    s[..i] + s[i + 1..]
  }

  datatype RemoveOutcome = Removed | NotFound | Forbidden

  datatype RemoveResult = RemoveResult(outcome: RemoveOutcome, after: seq<Listing>)

  /** Remove: the outcome and the collection afterwards. `userId` is the query
      parameter, `None` when the request leaves it out. */
  function RemoveListing(s: seq<Listing>, id: string, userId: Option<string>): (r: RemoveResult)
    ensures r.outcome == NotFound <==> forall k :: 0 <= k < |s| ==> !HasId(s[k], id)
    ensures r.outcome == Forbidden <==>
      exists i :: IsFirstMatch(s, id, i) && s[i].sellerId != userId
    ensures r.outcome != Removed ==> r.after == s
    ensures r.outcome == Removed ==>
      exists i :: IsFirstMatch(s, id, i) && s[i].sellerId == userId && r.after == s[..i] + s[i + 1..]
  {
    var i := FindIndex(s, id);
    if i == -1 then RemoveResult(NotFound, s)
    else if s[i].sellerId != userId then RemoveResult(Forbidden, s)
    else RemoveResult(Removed, Splice(s, i))
  }

  // ---------------------------------------------------------------------------
  // Load

  /** What reading the data file gave: no file, a file that could not be read
      or parsed, or the parsed collection. */
  datatype StorageRead = Absent | Unreadable | Stored(contents: seq<Listing>)

  /** The two built-in demo listings; each reads the clock once. */
  function DemoListings(now1: int, now2: int): seq<Listing> {
    [ Listing(Some("demo_1"), true, Some(40.0), Some("user_123"), Some("Алексей"), Some(now1 - 3600000)),
      Listing(Some("demo_2"), true, Some(80.0), Some("user_456"), Some("Мария"), Some(now2 - 7200000)) ]
  }

  function Load(read: StorageRead, now1: int, now2: int): (r: seq<Listing>)
    ensures read.Stored? ==> r == read.contents
    ensures !read.Stored? ==>
      && |r| == 2
      && r[0].globalId == Some("demo_1") && r[0].sellerId == Some("user_123") && r[0].price == Some(40.0)
      && r[1].globalId == Some("demo_2") && r[1].sellerId == Some("user_456") && r[1].price == Some(80.0)
      && r[0].timestamp == Some(now1 - 3600000) && r[1].timestamp == Some(now2 - 7200000)
      && r[0].coin && r[0].sellerName == Some("Алексей")
      && r[1].coin && r[1].sellerName == Some("Мария")
  {
    match read
    case Stored(contents) => contents
    case _ => DemoListings(now1, now2)
  }

  // ---------------------------------------------------------------------------
  // Properties across operations

  /** No identifier occurs twice. Nothing in server.js enforces this. */
  predicate DistinctIds(s: seq<Listing>) {
    forall i, j :: 0 <= i < j < |s| && s[i].globalId.Some? ==> s[i].globalId != s[j].globalId
  }

  lemma DemoIdsDistinct(now1: int, now2: int)
    ensures DistinctIds(Load(Absent, now1, now2))
    ensures DistinctIds(Load(Unreadable, now1, now2))
  {
  }

  /** A create keeps the identifiers distinct exactly when the new one is not in use. */
  lemma AddKeepsIdsDistinct(s: seq<Listing>, body: Listing, idTime: nat, stampTime: nat)
    requires DistinctIds(s)
    requires AddListing(s, body, idTime, stampTime).outcome.Created?
    ensures var id := GlobalId(body.sellerId.value, idTime);
      DistinctIds(AddListing(s, body, idTime, stampTime).after) <==>
        forall k :: 0 <= k < |s| ==> !HasId(s[k], id)
  {
  }

  /** A removal never introduces a duplicate. */
  lemma RemoveKeepsIdsDistinct(s: seq<Listing>, id: string, userId: Option<string>)
    requires DistinctIds(s)
    ensures DistinctIds(RemoveListing(s, id, userId).after)
  {
  }

  /** FindIndex on an extended collection finds an earlier match first. */
  lemma FindIndexAppend(s: seq<Listing>, l: Listing, id: string)
    requires forall k :: 0 <= k < |s| ==> !HasId(s[k], id)
    ensures FindIndex(s + [l], id) == if HasId(l, id) then |s| else -1
  {
    var t := s + [l];
    assert forall k :: 0 <= k < |s| ==> t[k] == s[k];
    assert t[|s|] == l;
    var r := FindIndex(t, id);
    if HasId(l, id) {
      assert r != -1;
    } else {
      assert !IsFirstMatch(t, id, r);
    }
  }

  /** The owner can take back a listing right after creating it, and nobody
      else can, as long as its identifier was not already in use. */
  lemma AddThenRemove(s: seq<Listing>, body: Listing, idTime: nat, stampTime: nat, userId: Option<string>)
    requires AddListing(s, body, idTime, stampTime).outcome.Created?
    requires forall k :: 0 <= k < |s| ==> !HasId(s[k], GlobalId(body.sellerId.value, idTime))
    ensures var after := AddListing(s, body, idTime, stampTime).after;
      RemoveListing(after, GlobalId(body.sellerId.value, idTime), userId) ==
        if userId == body.sellerId then RemoveResult(Removed, s) else RemoveResult(Forbidden, after)
  {
  }

  /** Two listings by one seller stamped in the same millisecond share an
      identifier, and a removal by that identifier takes the older one. */
  lemma SameMillisecondCollision(s: seq<Listing>, body1: Listing, body2: Listing, idTime: nat, t1: nat, t2: nat)
    requires HasRequiredFields(body1) && HasRequiredFields(body2)
    requires body1.sellerId == body2.sellerId
    requires forall k :: 0 <= k < |s| ==> !HasId(s[k], GlobalId(body1.sellerId.value, idTime))
    ensures var first := AddListing(s, body1, idTime, t1);
      var second := AddListing(first.after, body2, idTime, t2);
      && second.outcome.item.globalId == first.outcome.item.globalId
      && !DistinctIds(second.after)
      && RemoveListing(second.after, GlobalId(body1.sellerId.value, idTime), body1.sellerId).after
           == s + [second.outcome.item]
  {
    var id := GlobalId(body1.sellerId.value, idTime);
    var first := AddListing(s, body1, idTime, t1);
    var second := AddListing(first.after, body2, idTime, t2);
    FindIndexAppend(s, first.outcome.item, id);
    var after := second.after;
    assert after == s + [first.outcome.item] + [second.outcome.item];
    assert IsFirstMatch(after, id, |s|) by {
      assert forall k :: 0 <= k < |s| ==> after[k] == s[k];
    }
    assert after[..|s|] + after[|s| + 1..] == s + [second.outcome.item];
  }
}
