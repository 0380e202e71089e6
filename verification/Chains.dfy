/** How a claimed range splits into queue entries: one per unordered message, one per ordered key. */
module Chains {
  import opened RangeValues
  import opened Sequences

  /** The place of a message: entry number and position along that entry's chain. */
  datatype Place = Place(entry: nat, pos: nat)

  /** Every claimed index sits at exactly one place; `places` is the inverse of `chains`. */
  ghost predicate IsPartition(total: nat, chains: seq<seq<nat>>, places: seq<Place>) {
    && |places| == total
    && (forall i :: 0 <= i < total ==>
          places[i].entry < |chains| && places[i].pos < |chains[places[i].entry]| &&
          chains[places[i].entry][places[i].pos] == i)
    && (forall e, j :: 0 <= e < |chains| && 0 <= j < |chains[e]| ==>
          chains[e][j] < total && places[chains[e][j]] == Place(e, j))
  }

  predicate SameKey(claim: Claim, i: nat, j: nat)
    requires claim.Sized() && i < claim.Total() && j < claim.Total()
  {
    claim.IsOrdered(i) && claim.IsOrdered(j) && claim.keys[i] == claim.keys[j]
  }

  /** Chains run in claim order; only ordered messages of one key share one. */
  ghost predicate IsChain(claim: Claim, chain: seq<nat>)
    requires claim.Sized()
  {
    && chain != []
    && (forall j :: 0 <= j < |chain| ==> chain[j] < claim.Total())
    && (forall j, k :: 0 <= j < k < |chain| ==> chain[j] < chain[k] && SameKey(claim, chain[j], chain[k]))
  }

  /** The split of a range: a partition into chains, with all of an ordered key's messages in one chain. */
  ghost predicate IsSplit(claim: Claim, chains: seq<seq<nat>>, places: seq<Place>)
    requires claim.Sized()
  {
    && IsPartition(claim.Total(), chains, places)
    && (forall e :: 0 <= e < |chains| ==> IsChain(claim, chains[e]))
    && (forall i, k :: 0 <= i < claim.Total() && 0 <= k < claim.Total() && SameKey(claim, i, k) ==>
          places[i].entry == places[k].entry)
  }

  /** Along a split, same-key messages are reached in claim order. */
  lemma SameKeyInOrder(claim: Claim, chains: seq<seq<nat>>, places: seq<Place>, i: nat, k: nat)
    requires claim.Sized() && IsSplit(claim, chains, places)
    requires i < k < claim.Total() && SameKey(claim, i, k)
    ensures places[i].entry == places[k].entry && places[i].pos < places[k].pos
  {
    var e := places[i].entry;
    var a, b := places[i].pos, places[k].pos;
    assert chains[e][a] == i && chains[e][b] == k;
    assert IsChain(claim, chains[e]);
  }

  // ---- The split that `add` builds ----

  /** The first n messages that are queued by themselves, in claim order. */
  function Singles(claim: Claim, n: nat): (s: seq<nat>)
    requires claim.Sized() && n <= claim.Total()
    ensures forall j :: 0 <= j < |s| ==> s[j] < n
  {
    if n == 0 then []
    else if claim.IsOrdered(n - 1) then Singles(claim, n - 1)
    else Singles(claim, n - 1) + [n - 1]
  }

  /** The first n messages' chain for one ordered key, in claim order. */
  function KeyChain(claim: Claim, key: string, n: nat): (s: seq<nat>)
    requires claim.Sized() && n <= claim.Total()
    ensures forall j :: 0 <= j < |s| ==> s[j] < n
  {
    if n == 0 then []
    else if claim.IsOrdered(n - 1) && claim.keys[n - 1] == key then KeyChain(claim, key, n - 1) + [n - 1]
    else KeyChain(claim, key, n - 1)
  }

  function OrderedKeys(claim: Claim, n: nat): set<string>
    requires claim.Sized() && n <= claim.Total()
  {
    if n == 0 then {}
    else OrderedKeys(claim, n - 1) + (if claim.IsOrdered(n - 1) then {claim.keys[n - 1]} else {})
  }

  /** Singles holds each unordered message among the first n once, in claim order. */
  lemma {:induction false} SinglesAre(claim: Claim, n: nat)
    requires claim.Sized() && n <= claim.Total()
    ensures forall i :: i in Singles(claim, n) <==> 0 <= i < n && !claim.IsOrdered(i)
    ensures forall a, b :: 0 <= a < b < |Singles(claim, n)| ==> Singles(claim, n)[a] < Singles(claim, n)[b]
  {
    if n > 0 {
      SinglesAre(claim, n - 1);
    }
  }

  /** A key's chain holds each of its ordered messages among the first n once, in claim order. */
  lemma {:induction false} KeyChainIs(claim: Claim, key: string, n: nat)
    requires claim.Sized() && n <= claim.Total()
    ensures forall i :: i in KeyChain(claim, key, n) <==> 0 <= i < n && claim.IsOrdered(i) && claim.keys[i] == key
    ensures forall a, b :: 0 <= a < b < |KeyChain(claim, key, n)| ==>
              KeyChain(claim, key, n)[a] < KeyChain(claim, key, n)[b]
    ensures KeyChain(claim, key, n) != [] <==> key in OrderedKeys(claim, n)
  {
    if n > 0 {
      KeyChainIs(claim, key, n - 1);
    }
  }

  function SingleEntries(claim: Claim, n: nat): seq<seq<nat>>
    requires claim.Sized() && n <= claim.Total()
  {
    var singles := Singles(claim, n);
    seq(|singles|, i requires 0 <= i < |singles| => [singles[i]])
  }

  /** The entries `add` enqueues: the singles, then one chain per ordered key in any order of the keys. */
  function Entries(claim: Claim, keys: seq<string>): seq<seq<nat>>
    requires claim.Sized()
  {
    var n := claim.Total();
    SingleEntries(claim, n) + seq(|keys|, i requires 0 <= i < |keys| => KeyChain(claim, keys[i], n))
  }

  function IndexOf<T(==)>(s: seq<T>, x: T): (i: nat)
    requires x in s
    ensures i < |s| && s[i] == x
  {
    if s[0] == x then 0 else 1 + IndexOf(s[1..], x)
  }

  function PlaceOf(claim: Claim, keys: seq<string>, i: nat): Place
    requires claim.Sized() && i < claim.Total()
    requires forall k :: k in OrderedKeys(claim, claim.Total()) ==> k in keys
  {
    var n := claim.Total();
    SinglesAre(claim, n);
    KeyChainIs(claim, claim.keys[i], n);
    if claim.IsOrdered(i) then
      Place(|Singles(claim, n)| + IndexOf(keys, claim.keys[i]), IndexOf(KeyChain(claim, claim.keys[i], n), i))
    else
      Place(IndexOf(Singles(claim, n), i), 0)
  }

  lemma IndexOfAt<T>(s: seq<T>, j: nat)
    requires Distinct(s) && j < |s|
    ensures IndexOf(s, s[j]) == j
  {
  }

  lemma SingleEntry(claim: Claim, keys: seq<string>, e: nat)
    requires claim.Sized() && e < |Singles(claim, claim.Total())|
    requires forall k :: k in OrderedKeys(claim, claim.Total()) ==> k in keys
    ensures Entries(claim, keys)[e] == [Singles(claim, claim.Total())[e]]
    ensures IsChain(claim, Entries(claim, keys)[e])
    ensures PlaceOf(claim, keys, Entries(claim, keys)[e][0]) == Place(e, 0)
  {
    var singles := Singles(claim, claim.Total());
    SinglesAre(claim, claim.Total());
    assert singles[e] in singles;
    IndexOfAt(singles, e);
  }

  lemma KeyEntry(claim: Claim, keys: seq<string>, e: nat)
    requires claim.Sized() && Distinct(keys)
    requires forall k :: k in keys <==> k in OrderedKeys(claim, claim.Total())
    requires |Singles(claim, claim.Total())| <= e < |Entries(claim, keys)|
    ensures IsChain(claim, Entries(claim, keys)[e])
    ensures forall j :: 0 <= j < |Entries(claim, keys)[e]| ==>
              PlaceOf(claim, keys, Entries(claim, keys)[e][j]) == Place(e, j)
  {
    var n := claim.Total();
    var at := e - |Singles(claim, n)|;
    var key := keys[at];
    var chain := KeyChain(claim, key, n);
    assert Entries(claim, keys)[e] == chain;
    KeyChainIs(claim, key, n);
    assert key in keys;
    IndexOfAt(keys, at);
    forall j | 0 <= j < |chain|
      ensures claim.IsOrdered(chain[j]) && claim.keys[chain[j]] == key
      ensures PlaceOf(claim, keys, chain[j]) == Place(e, j)
    {
      assert chain[j] in chain;
      IndexOfAt(chain, j);
    }
  }

  lemma PlaceIsEntry(claim: Claim, keys: seq<string>, i: nat)
    requires claim.Sized() && i < claim.Total()
    requires forall k :: k in OrderedKeys(claim, claim.Total()) ==> k in keys
    ensures var p := PlaceOf(claim, keys, i); var chains := Entries(claim, keys);
            p.entry < |chains| && p.pos < |chains[p.entry]| && chains[p.entry][p.pos] == i
  {
    SinglesAre(claim, claim.Total());
    KeyChainIs(claim, claim.keys[i], claim.Total());
  }

  /** Every order of the chain heads gives a split of the range. */
  lemma EntriesSplit(claim: Claim, keys: seq<string>, places: seq<Place>)
    requires claim.Sized() && Distinct(keys)
    requires forall k :: k in keys <==> k in OrderedKeys(claim, claim.Total())
    requires |places| == claim.Total()
    requires forall i :: 0 <= i < claim.Total() ==> places[i] == PlaceOf(claim, keys, i)
    ensures IsSplit(claim, Entries(claim, keys), places)
  {
    var chains := Entries(claim, keys);
    forall e | 0 <= e < |chains|
      ensures IsChain(claim, chains[e])
      ensures forall j :: 0 <= j < |chains[e]| ==> places[chains[e][j]] == Place(e, j)
    {
      if e < |Singles(claim, claim.Total())| {
        SingleEntry(claim, keys, e);
      } else {
        KeyEntry(claim, keys, e);
      }
    }
    forall i | 0 <= i < claim.Total()
      ensures places[i].entry < |chains| && places[i].pos < |chains[places[i].entry]|
      ensures chains[places[i].entry][places[i].pos] == i
    {
      PlaceIsEntry(claim, keys, i);
    }
  }
}
