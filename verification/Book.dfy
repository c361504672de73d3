/** One side of an order book: a level list kept sorted, and the price-to-size map it stands for. */
module Book {
  import opened Prelude

  datatype Side = Buy | Sell

  datatype Level = Level(price: int, size: int)

  // ----- Level lists as the program edits them -----

  predicate HasPrice(levels: seq<Level>, price: int) {
    exists i | 0 <= i < |levels| :: levels[i].price == price
  }

  function Without(levels: seq<Level>, price: int): seq<Level> {
    if levels == [] then []
    else (if levels[0].price != price then [levels[0]] else []) + Without(levels[1..], price)
  }

  /** Overwrites the size of the first level at `price`. */
  function Replaced(levels: seq<Level>, price: int, size: int): seq<Level> {
    if levels == [] then []
    else if levels[0].price == price then [Level(price, size)] + levels[1..]
    else [levels[0]] + Replaced(levels[1..], price, size)
  }

  function Upsert(levels: seq<Level>, price: int, size: int): seq<Level> {
    if size == 0 then Without(levels, price)
    else if HasPrice(levels, price) then Replaced(levels, price, size)
    else levels + [Level(price, size)]
  }

  /** `Vec::retain` on the price. */
  method Retain(levels: seq<Level>, price: int) returns (kept: seq<Level>)
    ensures kept == Without(levels, price)
  {
    kept := [];
    assert levels[0..] == levels;
    for i := 0 to |levels|
      invariant kept + Without(levels[i..], price) == Without(levels, price)
    {
      assert levels[i..][1..] == levels[i + 1..];
      if levels[i].price != price {
        assert kept + ([levels[i]] + Without(levels[i + 1..], price))
            == (kept + [levels[i]]) + Without(levels[i + 1..], price);
        kept := kept + [levels[i]];
      }
    }
  }

  method UpsertLevel(levels: seq<Level>, price: int, size: int) returns (updated: seq<Level>)
    ensures updated == Upsert(levels, price, size)
  {
    if size == 0 {
      updated := Retain(levels, price);
      return;
    }
    for i := 0 to |levels|
      invariant forall j | 0 <= j < i :: levels[j].price != price
    {
      if levels[i].price == price {
        ReplacedAt(levels, i, price, size);
        return levels[i := Level(price, size)];
      }
    }
    return levels + [Level(price, size)];
  }

  lemma {:induction false} ReplacedAt(levels: seq<Level>, i: nat, price: int, size: int)
    requires i < |levels| && levels[i].price == price
    requires forall j | 0 <= j < i :: levels[j].price != price
    ensures Replaced(levels, price, size) == levels[i := Level(price, size)]
  {
    if i == 0 {
      assert levels[0 := Level(price, size)] == [Level(price, size)] + levels[1..];
    } else {
      ReplacedAt(levels[1..], i - 1, price, size);
      assert levels[i := Level(price, size)] == [levels[0]] + levels[1..][i - 1 := Level(price, size)];
    }
  }

  /** Bids rank high prices first, asks low prices first. */
  predicate Before(desc: bool, p: int, q: int) {
    if desc then p > q else p < q
  }

  function Insert(level: Level, levels: seq<Level>, desc: bool): seq<Level> {
    if levels == [] || !Before(desc, levels[0].price, level.price) then [level] + levels
    else [levels[0]] + Insert(level, levels[1..], desc)
  }

  /** The stable sort by price. */
  function Sorted(levels: seq<Level>, desc: bool): seq<Level> {
    if levels == [] then [] else Insert(levels[0], Sorted(levels[1..], desc), desc)
  }

  function Head(levels: seq<Level>): Option<int> {
    if levels == [] then None else Some(levels[0].price)
  }

  // ----- The map a list stands for -----

  ghost predicate DistinctPrices(levels: seq<Level>) {
    forall i, j | 0 <= i < j < |levels| :: levels[i].price != levels[j].price
  }

  ghost predicate StrictlySorted(levels: seq<Level>, desc: bool) {
    forall i, j | 0 <= i < j < |levels| :: Before(desc, levels[i].price, levels[j].price)
  }

  ghost function MapOf(levels: seq<Level>): map<int, int> {
    if levels == [] then map[] else MapOf(levels[1..])[levels[0].price := levels[0].size]
  }

  /** The map contains exactly the listed levels. */
  lemma {:induction false} MapOfMember(levels: seq<Level>, price: int, size: int)
    requires DistinctPrices(levels)
    ensures (price in MapOf(levels) && MapOf(levels)[price] == size) <==> Level(price, size) in levels
  {
    if levels != [] {
      MapOfMember(levels[1..], price, size);
      assert levels == [levels[0]] + levels[1..];
    }
  }

  lemma MapOfKey(levels: seq<Level>, price: int)
    requires DistinctPrices(levels)
    ensures price in MapOf(levels) <==> HasPrice(levels, price)
  {
    if price in MapOf(levels) {
      MapOfMember(levels, price, MapOf(levels)[price]);
    }
    if HasPrice(levels, price) {
      var i :| 0 <= i < |levels| && levels[i].price == price;
      MapOfMember(levels, price, levels[i].size);
    }
  }

  /** A map is fixed by the pairs it contains. */
  lemma MapByMembers(levels: seq<Level>, m: map<int, int>)
    requires DistinctPrices(levels)
    requires forall p, s :: (p in m && m[p] == s) <==> Level(p, s) in levels
    ensures MapOf(levels) == m
  {
    forall p ensures p in MapOf(levels) <==> p in m {
      if p in MapOf(levels) {
        MapOfMember(levels, p, MapOf(levels)[p]);
      }
      if p in m {
        MapOfMember(levels, p, m[p]);
      }
    }
    forall p | p in m ensures MapOf(levels)[p] == m[p] {
      MapOfMember(levels, p, m[p]);
    }
  }

  lemma {:induction false} InsertFacts(level: Level, levels: seq<Level>, desc: bool)
    requires StrictlySorted(levels, desc) && !HasPrice(levels, level.price)
    ensures StrictlySorted(Insert(level, levels, desc), desc)
    ensures forall l :: l in Insert(level, levels, desc) <==> l == level || l in levels
  {
    var r := Insert(level, levels, desc);
    if levels != [] && Before(desc, levels[0].price, level.price) {
      assert forall i | 0 <= i < |levels[1..]| :: levels[1..][i] == levels[i + 1];
      InsertFacts(level, levels[1..], desc);
      forall l ensures l in r <==> l == level || l in levels {
        assert l in levels <==> l == levels[0] || l in levels[1..];
      }
      forall i, j | 0 <= i < j < |r| ensures Before(desc, r[i].price, r[j].price) {
        if i == 0 {
          assert r[j] in Insert(level, levels[1..], desc);
        }
      }
    } else if levels != [] {
      assert HasPrice(levels, levels[0].price);
      assert Before(desc, level.price, levels[0].price);
    }
  }

  lemma {:induction false} SortedFacts(levels: seq<Level>, desc: bool)
    requires DistinctPrices(levels)
    ensures StrictlySorted(Sorted(levels, desc), desc)
    ensures forall l :: l in Sorted(levels, desc) <==> l in levels
  {
    if levels != [] {
      SortedFacts(levels[1..], desc);
      var rest := Sorted(levels[1..], desc);
      forall i | 0 <= i < |rest| ensures rest[i].price != levels[0].price {
        assert rest[i] in levels[1..];
      }
      InsertFacts(levels[0], rest, desc);
      assert levels == [levels[0]] + levels[1..];
    }
  }

  lemma StrictlySortedDistinct(levels: seq<Level>, desc: bool)
    requires StrictlySorted(levels, desc)
    ensures DistinctPrices(levels)
  {
  }

  /** Sorting a list of distinct prices leaves its map alone. */
  lemma SortedMap(levels: seq<Level>, desc: bool)
    requires DistinctPrices(levels)
    ensures StrictlySorted(Sorted(levels, desc), desc)
    ensures MapOf(Sorted(levels, desc)) == MapOf(levels)
  {
    SortedFacts(levels, desc);
    StrictlySortedDistinct(Sorted(levels, desc), desc);
    forall p, s ensures (p in MapOf(levels) && MapOf(levels)[p] == s) <==> Level(p, s) in Sorted(levels, desc) {
      MapOfMember(levels, p, s);
    }
    MapByMembers(Sorted(levels, desc), MapOf(levels));
  }

  lemma {:induction false} WithoutFacts(levels: seq<Level>, price: int)
    requires DistinctPrices(levels)
    ensures DistinctPrices(Without(levels, price))
    ensures forall l :: l in Without(levels, price) <==> l in levels && l.price != price
  {
    if levels != [] {
      WithoutFacts(levels[1..], price);
      var rest := Without(levels[1..], price);
      assert levels == [levels[0]] + levels[1..];
      forall i | 0 <= i < |rest| ensures rest[i].price != levels[0].price {
        assert rest[i] in levels[1..];
      }
    }
  }

  lemma {:induction false} ReplacedFacts(levels: seq<Level>, price: int, size: int)
    requires DistinctPrices(levels) && HasPrice(levels, price)
    ensures DistinctPrices(Replaced(levels, price, size))
    ensures forall l :: l in Replaced(levels, price, size) <==>
      (l in levels && l.price != price) || l == Level(price, size)
  {
    var r := Replaced(levels, price, size);
    assert levels == [levels[0]] + levels[1..];
    if levels[0].price == price {
      assert r == [Level(price, size)] + levels[1..];
    } else {
      assert HasPrice(levels[1..], price) by {
        var i :| 0 <= i < |levels| && levels[i].price == price;
        assert levels[1..][i - 1].price == price;
      }
      ReplacedFacts(levels[1..], price, size);
      var rest := Replaced(levels[1..], price, size);
      forall i | 0 <= i < |rest| ensures rest[i].price != levels[0].price {
        assert rest[i] in rest;
      }
    }
  }

  /** One change on the list is one change on the map: zero deletes, anything else overwrites. */
  function ChangedMap(m: map<int, int>, price: int, size: int): map<int, int> {
    if size == 0 then m - {price} else m[price := size]
  }

  lemma UpsertMap(levels: seq<Level>, price: int, size: int)
    requires DistinctPrices(levels)
    ensures DistinctPrices(Upsert(levels, price, size))
    ensures MapOf(Upsert(levels, price, size)) == ChangedMap(MapOf(levels), price, size)
    ensures forall l | l in Upsert(levels, price, size) :: l in levels || (size != 0 && l == Level(price, size))
  {
    var updated := Upsert(levels, price, size);
    if size == 0 {
      WithoutFacts(levels, price);
    } else if HasPrice(levels, price) {
      ReplacedFacts(levels, price, size);
    }
    forall p, s ensures
      (p in ChangedMap(MapOf(levels), price, size) && ChangedMap(MapOf(levels), price, size)[p] == s)
      <==> Level(p, s) in updated
    {
      MapOfMember(levels, p, s);
      if !HasPrice(levels, price) && p == price {
        MapOfKey(levels, price);
      }
    }
    MapByMembers(updated, ChangedMap(MapOf(levels), price, size));
  }

  // ----- Best price and unique listing of a map -----

  ghost predicate IsTop(p: int, m: map<int, int>, desc: bool) {
    p in m && forall q | q in m && q != p :: Before(desc, p, q)
  }

  lemma TopUnique(p: int, q: int, m: map<int, int>, desc: bool)
    requires IsTop(p, m, desc) && IsTop(q, m, desc)
    ensures p == q
  {
  }

  ghost function Top(m: map<int, int>, desc: bool): Option<int> {
    if exists p :: IsTop(p, m, desc) then
      var p :| IsTop(p, m, desc);
      Some(p)
    else None
  }

  lemma HeadIsTop(levels: seq<Level>, desc: bool)
    requires StrictlySorted(levels, desc)
    ensures Head(levels) == Top(MapOf(levels), desc)
  {
    StrictlySortedDistinct(levels, desc);
    var m := MapOf(levels);
    if levels == [] {
      assert forall p :: !IsTop(p, m, desc);
    } else {
      var p := levels[0].price;
      MapOfKey(levels, p);
      forall q | q in m && q != p ensures Before(desc, p, q) {
        MapOfKey(levels, q);
      }
      assert IsTop(p, m, desc);
      TopUnique(p, Top(m, desc).value, m, desc);
    }
  }

  /** A strictly sorted list is the only sorted listing of its map. */
  lemma {:induction false} ListingUnique(a: seq<Level>, b: seq<Level>, desc: bool)
    requires StrictlySorted(a, desc) && StrictlySorted(b, desc)
    requires MapOf(a) == MapOf(b)
    ensures a == b
  {
    StrictlySortedDistinct(a, desc);
    StrictlySortedDistinct(b, desc);
    HeadIsTop(a, desc);
    HeadIsTop(b, desc);
    if a != [] {
      assert b != [];
      MapOfMember(a, a[0].price, a[0].size);
      MapOfMember(b, b[0].price, b[0].size);
      assert a[0] == b[0];
      RestMap(a);
      RestMap(b);
      ListingUnique(a[1..], b[1..], desc);
      assert a == [a[0]] + a[1..] && b == [b[0]] + b[1..];
    }
  }

  lemma RestMap(levels: seq<Level>)
    requires levels != [] && DistinctPrices(levels)
    ensures MapOf(levels[1..]) == MapOf(levels) - {levels[0].price}
  {
    MapOfKey(levels[1..], levels[0].price);
  }
}
