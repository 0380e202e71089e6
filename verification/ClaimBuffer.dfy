/** The buffer between claiming a range and dispatching its messages. */
module ClaimBuffers {
  import opened Chains
  import opened MessageOptions
  import opened RangeTracking
  import opened RangeValues
  import opened Sequences
  import opened Wrappers

  datatype Message = Message(id: int, key: string, options: Option<MessageOptions>)

  datatype ClaimedRange = ClaimedRange(lease: Lease, messages: seq<Message>)

  /** The claim a range is tracked under: every message's options are resolved once, at claim time. */
  function ClaimOf(claimed: ClaimedRange, group: GroupConfig, includeSuccesses: bool): (claim: Claim)
    ensures |claim.ids| == |claim.keys| == |claim.policies| == |claimed.messages|
  {
    var n := |claimed.messages|;
    Claim(
      claimed.lease,
      seq(n, i requires 0 <= i < n => claimed.messages[i].id),
      seq(n, i requires 0 <= i < n => claimed.messages[i].key),
      seq(n, i requires 0 <= i < n => ResolveMessageOptions(group, claimed.messages[i].options).concurrency),
      includeSuccesses)
  }

  /** A queue entry. `next` links the ordered messages that run behind it. */
  class Buffered {
    const lease: Lease
    const index: nat
    const options: MessageOptions
    var next: Buffered?

    constructor (lease: Lease, index: nat, options: MessageOptions)
      ensures this.lease == lease && this.index == index && this.options == options && next == null
    {
      this.lease := lease;
      this.index := index;
      this.options := options;
      next := null;
    }
  }

  /** The entries of a claim: one object per message, in claim order. */
  ghost predicate Items(items: seq<Buffered>) {
    forall i :: 0 <= i < |items| ==> items[i].index == i
  }

  ghost function Pick(items: seq<Buffered>, indices: seq<nat>): (s: seq<Buffered>)
    requires forall j :: 0 <= j < |indices| ==> indices[j] < |items|
    ensures |s| == |indices|
    ensures forall j :: 0 <= j < |s| ==> s[j] == items[indices[j]]
  {
    seq(|indices|, j requires 0 <= j < |indices| => items[indices[j]])
  }

  /** The entries are linked front to back and end there. */
  ghost predicate Linked(items: seq<Buffered>)
    reads items
  {
    forall j :: 0 <= j < |items| ==> items[j].next == if j + 1 < |items| then items[j + 1] else null
  }

  class ClaimBuffer {
    const includeSuccesses: bool
    var queue: seq<Buffered>
    var ranges: map<nat, RangeState>

    constructor (includeSuccesses: bool)
      ensures this.includeSuccesses == includeSuccesses && queue == [] && ranges == map[]
    {
      this.includeSuccesses := includeSuccesses;
      queue, ranges := [], map[];
    }

    method Track(state: RangeState)
      modifies this`ranges
      ensures ranges == old(ranges)[state.claim.lease.token := state]
    {
      ranges := ranges[state.claim.lease.token := state];
    }

    method Remove(token: nat)
      modifies this`ranges
      ensures ranges == old(ranges) - {token}
    {
      ranges := ranges - {token};
    }

    /** Empties the map in one step; every tracked range is handed out once. */
    method RemoveAll() returns (states: seq<RangeState>)
      modifies this`ranges
      ensures ranges == map[]
      ensures |states| == |old(ranges)|
      ensures forall s :: s in states <==> s in old(ranges).Values
    {
      states := [];
      var left := ranges.Keys;
      while left != {}
        invariant left <= ranges.Keys
        invariant |states| + |left| == |ranges|
        invariant forall s :: s in states <==> exists k :: k in ranges && k !in left && ranges[k] == s
        decreases left
      {
        var k :| k in left;
        ghost var before := states;
        states := states + [ranges[k]];
        left := left - {k};
        forall s | exists q :: q in ranges && q !in left && ranges[q] == s ensures s in states {
          var q :| q in ranges && q !in left && ranges[q] == s;
          if q != k {
            assert s in before;
          }
        }
      }
      ranges := map[];
    }

    /** Links a chain's entries front to back. */
    method Link(items: seq<Buffered>)
      requires items != [] && Distinct(items)
      requires forall j :: 0 <= j < |items| ==> items[j].next == null
      modifies items
      ensures Linked(items)
    {
      for j := 0 to |items| - 1
        invariant forall k :: 0 <= k < j ==> items[k].next == items[k + 1]
        invariant forall k :: j <= k < |items| ==> items[k].next == null
      {
        items[j].next := items[j + 1];
      }
    }

    /** Hands out the head of the queue and counts the dispatch on its range, if that is still tracked. */
    method WaitForNext() returns (item: Buffered)
      requires queue != []
      modifies this`queue, ranges.Values`dispatched
      ensures item == old(queue[0]) && queue == old(queue[1..])
      ensures forall s :: s in ranges.Values ==>
                s.dispatched == old(s.dispatched) +
                if item.lease.token in ranges && ranges[item.lease.token] == s then 1 else 0
    {
      item := queue[0];
      queue := queue[1..];
      if item.lease.token in ranges {
        var state := ranges[item.lease.token];
        state.dispatched := state.dispatched + 1;
      }
    }

    /** Resolves one entry's message; a range settled elsewhere fences the write. */
    method Resolve(item: Buffered, kind: OutcomeKind, err: Note, delay: int)
      requires forall t :: t in ranges ==> ranges[t].Valid() && ranges[t].claim.lease.token == t
      requires item.lease.token in ranges ==> item.index < ranges[item.lease.token].results.Length
      modifies (set t | t in ranges && t == item.lease.token :: ranges[t])`resolved,
               set t | t in ranges && t == item.lease.token :: ranges[t].results
      ensures item.lease.token in ranges ==>
                var s := ranges[item.lease.token];
                s.results[..] == old(s.results[..])[
                  item.index := Done(Resolution(kind, err, delay, item.options.concurrency))]
                && s.resolved == old(s.resolved) + 1
    {
      if item.lease.token in ranges {
        var state := ranges[item.lease.token];
        state.Resolve(item.index, Resolution(kind, err, delay, item.options.concurrency));
      }
    }

    /** Marks a tracked range stale; true for the one caller that changed the flag. */
    method MarkStale(token: nat) returns (first: bool)
      modifies (set t | t in ranges && t == token :: ranges[t])`stale
      ensures first <==> token in ranges && !old(ranges[token].stale)
      ensures token in ranges ==> ranges[token].stale
    {
      if token !in ranges {
        return false;
      }
      first := !ranges[token].stale;
      ranges[token].stale := true;
    }

    /** Appends an entry to the queue, or fails because the context was cancelled while waiting for room. */
    method EnQueue(item: Buffered, room: nat) returns (ok: bool)
      modifies this`queue
      ensures ok == (room > 0)
      ensures queue == if ok then old(queue) + [item] else old(queue)
    {
      if room == 0 {
        return false;
      }
      queue := queue + [item];
      return true;
    }

    /** The first loop of `add`: queues every unordered message, collects the ordered ones by key. */
    method QueueSingles(claimed: ClaimedRange, group: GroupConfig, room: nat)
      returns (ok: bool, left: nat, chains: map<string, seq<Buffered>>, ghost items: seq<Buffered>)
      modifies this`queue
      ensures var claim := ClaimOf(claimed, group, includeSuccesses);
              SinglesQueued(claim, old(queue), queue, room, left, items, chains) &&
              if ok then |items| == claim.Total() else left == 0 && |items| < claim.Total() && !claim.IsOrdered(|items|)
      ensures forall i :: 0 <= i < |items| ==> fresh(items[i]) && items[i].next == null
    {
      ghost var claim := ClaimOf(claimed, group, includeSuccesses);
      chains, left, items := map[], room, [];
      ok := true;
      for i := 0 to |claimed.messages|
        invariant |items| == i && SinglesQueued(claim, old(queue), queue, room, left, items, chains)
        invariant forall j :: 0 <= j < |items| ==> fresh(items[j]) && items[j].next == null
      {
        var row := claimed.messages[i];
        var item := new Buffered(claimed.lease, i, ResolveMessageOptions(group, row.options));
        assert claim.IsOrdered(i) <==> row.key != "" && item.options.concurrency.Ordered?;
        if row.key != "" && item.options.concurrency.Ordered? {
          ChainGrows(claim, old(queue), queue, room, left, items, item, chains);
          chains := chains[row.key := (if row.key in chains then chains[row.key] else []) + [item]];
        } else {
          ghost var before := queue;
          ok := EnQueue(item, left);
          if !ok {
            return;
          }
          SingleGrows(claim, old(queue), before, room, left, items, item, chains);
          left := left - 1;
        }
        items := items + [item];
      }
    }

    /** The second loop of `add`: links each key's chain and queues only its head. */
    method QueueChains(chains: map<string, seq<Buffered>>, room: nat) returns (ok: bool, ghost keys: seq<string>)
      requires Separate(chains)
      requires forall k, j :: k in chains && 0 <= j < |chains[k]| ==> chains[k][j].next == null
      modifies this`queue, set k, j | k in chains && 0 <= j < |chains[k]| :: chains[k][j]
      ensures Distinct(keys) && (forall k :: k in keys ==> k in chains && Linked(chains[k]))
      ensures if ok then |keys| <= room && (forall k :: k in chains ==> k in keys) else |keys| == room
      ensures queue == old(queue) + HeadsOf(chains, keys)
    {
      keys := [];
      var left := chains.Keys;
      var budget := room;
      while left != {}
        invariant left <= chains.Keys && budget == room - |keys|
        invariant forall k :: k in keys <==> k in chains && k !in left
        invariant Distinct(keys)
        invariant forall k :: k in keys ==> Linked(chains[k])
        invariant forall k, j :: k in left && 0 <= j < |chains[k]| ==> chains[k][j].next == null
        invariant queue == old(queue) + HeadsOf(chains, keys)
        decreases left
      {
        var key :| key in left;
        OthersDiffer(chains, key);
        Link(chains[key]);
        ok := EnQueue(chains[key][0], budget);
        if !ok {
          return;
        }
        budget := budget - 1;
        left := left - {key};
        keys := keys + [key];
      }
      ok := true;
    }

    /** Tracks the claim, then enqueues its entries: the unordered messages, then the head of each ordered
        key's chain. `room` is how many of the blocking enqueues succeed before the context is cancelled.
        `items` are the entries by message index, `keys` the order the chain heads were enqueued in, and
        `queued` the chains whose heads got queued. */
    method Add(claimed: ClaimedRange, group: GroupConfig, room: nat)
      returns (ok: bool, ghost items: seq<Buffered>, ghost keys: seq<string>, ghost queued: seq<seq<nat>>)
      requires ClaimOf(claimed, group, includeSuccesses).Valid()
      modifies this
      ensures claimed.messages == [] ==> !ok && ranges == old(ranges) && queue == old(queue)
      ensures claimed.messages != [] ==>
                && ranges.Keys == old(ranges).Keys + {claimed.lease.token}
                && (forall t :: t in old(ranges) && t != claimed.lease.token ==> ranges[t] == old(ranges[t]))
                && fresh(ranges[claimed.lease.token])
                && ranges[claimed.lease.token].Valid()
                && ranges[claimed.lease.token].claim == ClaimOf(claimed, group, includeSuccesses)
      ensures claimed.messages != [] ==>
                Enqueued(ClaimOf(claimed, group, includeSuccesses), old(queue), queue, room, ok, items, keys, queued)
    {
      items, keys, queued := [], [], [];
      if claimed.messages == [] {
        return false, items, keys, queued;
      }
      var claim := ClaimOf(claimed, group, includeSuccesses);
      var state := new RangeState(claim);
      // track BEFORE enqueueing, so that shutdown settles a range whose enqueueing failed
      Track(state);
      var left, chains;
      ok, left, chains, items := QueueSingles(claimed, group, room);
      if !ok {
        queued := SingleEntries(claim, |items|);
        SinglesEnqueued(claim, old(queue), queue, room, left, items, chains);
        return;
      }
      ghost var halfway := queue;
      CollectedSeparate(claim, old(queue), queue, room, left, items, chains);
      SinglesApart(claim, old(queue), queue, room, left, items, chains);
      ok, keys := QueueChains(chains, left);
      queued := Entries(claim, keys);
      ChainsEnqueued(claim, old(queue), halfway, queue, room, left, ok, items, chains, keys);
    }
  }

  /** What enqueueing leaves behind: all of the range's entries, or the first `room` of them; each linked
      along its chain, and its head in the queue. */
  ghost predicate Enqueued(
    claim: Claim, before: seq<Buffered>, queue: seq<Buffered>, room: nat, ok: bool,
    items: seq<Buffered>, keys: seq<string>, queued: seq<seq<nat>>)
    reads items
  {
    && claim.Sized() && Items(items) && Distinct(keys)
    && (forall k :: k in keys ==> k in OrderedKeys(claim, claim.Total()))
    && (ok ==> forall k :: k in OrderedKeys(claim, claim.Total()) ==> k in keys)
    && queued <= Entries(claim, keys)
    && (if ok then queued == Entries(claim, keys) && |queued| <= room else |queued| == room)
    && (forall e, j :: 0 <= e < |queued| && 0 <= j < |queued[e]| ==> queued[e][j] < |items|)
    && (forall e :: 0 <= e < |queued| ==> queued[e] != [] && Linked(Pick(items, queued[e])))
    && queue == before + Pick(items, HeadIndices(queued))
  }

  lemma SinglesEnqueued(
    claim: Claim, before: seq<Buffered>, queue: seq<Buffered>, room: nat, left: nat,
    items: seq<Buffered>, chains: map<string, seq<Buffered>>)
    requires SinglesQueued(claim, before, queue, room, left, items, chains) && left == 0
    requires forall i :: 0 <= i < |items| ==> items[i].next == null
    ensures Enqueued(claim, before, queue, room, false, items, [], SingleEntries(claim, |items|))
  {
    SinglesPrefix(claim, |items|, claim.Total());
    assert HeadIndices(SingleEntries(claim, |items|)) == Singles(claim, |items|);
  }

  /** Entry e is linked along its chain, and its head is what got queued for it. */
  lemma EntryEnqueued(
    claim: Claim, before: seq<Buffered>, halfway: seq<Buffered>, room: nat, left: nat,
    items: seq<Buffered>, chains: map<string, seq<Buffered>>, keys: seq<string>, e: nat)
    requires SinglesQueued(claim, before, halfway, room, left, items, chains) && |items| == claim.Total()
    requires Separate(chains)
    requires forall k :: k in keys ==> k in chains && Linked(chains[k])
    requires forall i :: 0 <= i < |items| && !claim.IsOrdered(i) ==> items[i].next == null
    requires e < |Entries(claim, keys)|
    ensures var chain := Entries(claim, keys)[e];
            var singles := Singles(claim, claim.Total());
            && chain != [] && (forall j :: 0 <= j < |chain| ==> chain[j] < |items|)
            && Linked(Pick(items, chain))
            && items[chain[0]] == (Pick(items, singles) + HeadsOf(chains, keys))[e]
  {
    var n := claim.Total();
    var singles := Singles(claim, n);
    if e < |singles| {
      SinglesAre(claim, n);
      assert singles[e] in singles;
    } else {
      var key := keys[e - |singles|];
      assert key in keys;
      assert Entries(claim, keys)[e] == KeyChain(claim, key, n) && chains[key] == Pick(items, Entries(claim, keys)[e]);
    }
  }

  lemma ChainsLinked(
    claim: Claim, before: seq<Buffered>, halfway: seq<Buffered>, room: nat, left: nat,
    items: seq<Buffered>, chains: map<string, seq<Buffered>>, keys: seq<string>)
    requires SinglesQueued(claim, before, halfway, room, left, items, chains) && |items| == claim.Total()
    requires Separate(chains)
    requires forall k :: k in keys ==> k in chains && Linked(chains[k])
    requires forall i :: 0 <= i < |items| && !claim.IsOrdered(i) ==> items[i].next == null
    ensures var queued := Entries(claim, keys);
            && (forall e, j :: 0 <= e < |queued| && 0 <= j < |queued[e]| ==> queued[e][j] < |items|)
            && (forall e :: 0 <= e < |queued| ==> queued[e] != [] && Linked(Pick(items, queued[e])))
            && Pick(items, HeadIndices(queued)) == Pick(items, Singles(claim, claim.Total())) + HeadsOf(chains, keys)
  {
    var queued := Entries(claim, keys);
    var singles := Singles(claim, claim.Total());
    forall e | 0 <= e < |queued|
      ensures queued[e] != [] && (forall j :: 0 <= j < |queued[e]| ==> queued[e][j] < |items|)
      ensures Linked(Pick(items, queued[e]))
      ensures items[queued[e][0]] == (Pick(items, singles) + HeadsOf(chains, keys))[e]
    {
      EntryEnqueued(claim, before, halfway, room, left, items, chains, keys, e);
    }
  }

  lemma ChainsEnqueued(
    claim: Claim, before: seq<Buffered>, halfway: seq<Buffered>, queue: seq<Buffered>, room: nat, left: nat, ok: bool,
    items: seq<Buffered>, chains: map<string, seq<Buffered>>, keys: seq<string>)
    requires SinglesQueued(claim, before, halfway, room, left, items, chains) && |items| == claim.Total()
    requires Separate(chains) && Distinct(keys)
    requires forall k :: k in keys ==> k in chains && Linked(chains[k])
    requires if ok then |keys| <= left && (forall k :: k in chains ==> k in keys) else |keys| == left
    requires queue == halfway + HeadsOf(chains, keys)
    requires forall i :: 0 <= i < |items| && !claim.IsOrdered(i) ==> items[i].next == null
    ensures Enqueued(claim, before, queue, room, ok, items, keys, Entries(claim, keys))
  {
    ChainsLinked(claim, before, halfway, room, left, items, chains, keys);
  }

  ghost function HeadIndices(entries: seq<seq<nat>>): seq<nat>
    requires forall e :: 0 <= e < |entries| ==> entries[e] != []
  {
    seq(|entries|, e requires 0 <= e < |entries| => entries[e][0])
  }

  lemma {:induction false} SinglesPrefix(claim: Claim, m: nat, n: nat)
    requires claim.Sized() && m <= n <= claim.Total()
    ensures Singles(claim, m) <= Singles(claim, n)
  {
    if m < n {
      SinglesPrefix(claim, m, n - 1);
    }
  }

  lemma SinglesApart(
    claim: Claim, before: seq<Buffered>, queue: seq<Buffered>, room: nat, left: nat,
    items: seq<Buffered>, chains: map<string, seq<Buffered>>)
    requires SinglesQueued(claim, before, queue, room, left, items, chains)
    ensures forall i, k, j :: 0 <= i < |items| && !claim.IsOrdered(i) && k in chains && 0 <= j < |chains[k]| ==>
              items[i] != chains[k][j]
  {
    forall i, k, j | 0 <= i < |items| && !claim.IsOrdered(i) && k in chains && 0 <= j < |chains[k]|
      ensures items[i] != chains[k][j]
    {
      var chain := KeyChain(claim, k, |items|);
      KeyChainIs(claim, k, |items|);
      assert chain[j] in chain;
      assert items[chain[j]].index != items[i].index;
    }
  }

  /** The chains collected by key are non-empty and share no entry. */
  lemma CollectedSeparate(
    claim: Claim, before: seq<Buffered>, queue: seq<Buffered>, room: nat, left: nat,
    items: seq<Buffered>, chains: map<string, seq<Buffered>>)
    requires SinglesQueued(claim, before, queue, room, left, items, chains)
    ensures Separate(chains)
  {
    forall k, m, j, l |
      k in chains && m in chains && 0 <= j < |chains[k]| && 0 <= l < |chains[m]| && chains[k][j] == chains[m][l]
      ensures k == m && j == l
    {
      var a, b := KeyChain(claim, k, |items|), KeyChain(claim, m, |items|);
      KeyChainIs(claim, k, |items|);
      KeyChainIs(claim, m, |items|);
      assert items[a[j]].index == items[b[l]].index;
      assert a[j] in a && b[l] in b;
    }
    forall k | k in chains ensures chains[k] != [] {
      KeyChainIs(claim, k, |items|);
    }
  }

  ghost predicate Separate(chains: map<string, seq<Buffered>>) {
    && (forall k :: k in chains ==> chains[k] != [])
    && (forall k, m, j, l :: k in chains && m in chains && 0 <= j < |chains[k]| && 0 <= l < |chains[m]| ==>
          (chains[k][j] == chains[m][l] ==> k == m && j == l))
  }

  ghost function HeadsOf(chains: map<string, seq<Buffered>>, keys: seq<string>): seq<Buffered>
    requires forall k :: k in keys ==> k in chains && chains[k] != []
  {
    seq(|keys|, i requires 0 <= i < |keys| => chains[keys[i]][0])
  }

  lemma OthersDiffer(chains: map<string, seq<Buffered>>, key: string)
    requires Separate(chains) && key in chains
    ensures Distinct(chains[key])
    ensures forall k, j :: k in chains && k != key && 0 <= j < |chains[k]| ==> chains[k][j] !in chains[key]
  {
  }

  ghost predicate SinglesQueued(
    claim: Claim, before: seq<Buffered>, queue: seq<Buffered>, room: nat, left: nat,
    items: seq<Buffered>, chains: map<string, seq<Buffered>>)
  {
    && claim.Sized() && |items| <= claim.Total()
    && Items(items)
    && left == room - |Singles(claim, |items|)|
    && queue == before + Pick(items, Singles(claim, |items|))
    && chains.Keys == OrderedKeys(claim, |items|)
    && (forall k :: k in chains ==> chains[k] == Pick(items, KeyChain(claim, k, |items|)))
  }

  lemma PickPrefix(items: seq<Buffered>, item: Buffered, indices: seq<nat>)
    requires forall j :: 0 <= j < |indices| ==> indices[j] < |items|
    ensures Pick(items + [item], indices) == Pick(items, indices)
    ensures Pick(items + [item], indices + [|items|]) == Pick(items, indices) + [item]
  {
  }

  lemma ChainGrows(
    claim: Claim, before: seq<Buffered>, queue: seq<Buffered>, room: nat, left: nat,
    items: seq<Buffered>, item: Buffered, chains: map<string, seq<Buffered>>)
    requires SinglesQueued(claim, before, queue, room, left, items, chains)
    requires |items| < claim.Total() && claim.IsOrdered(|items|) && item.index == |items|
    ensures var key := claim.keys[|items|];
            var grown := chains[key := (if key in chains then chains[key] else []) + [item]];
            SinglesQueued(claim, before, queue, room, left, items + [item], grown)
  {
    var i := |items|;
    var key := claim.keys[i];
    PickPrefix(items, item, Singles(claim, i));
    PickPrefix(items, item, KeyChain(claim, key, i));
    KeyChainIs(claim, key, i);
    forall k | k in chains && k != key ensures chains[k] == Pick(items + [item], KeyChain(claim, k, i + 1)) {
      PickPrefix(items, item, KeyChain(claim, k, i));
    }
  }

  lemma SingleGrows(
    claim: Claim, before: seq<Buffered>, queue: seq<Buffered>, room: nat, left: nat,
    items: seq<Buffered>, item: Buffered, chains: map<string, seq<Buffered>>)
    requires SinglesQueued(claim, before, queue, room, left, items, chains) && left > 0
    requires |items| < claim.Total() && !claim.IsOrdered(|items|) && item.index == |items|
    ensures SinglesQueued(claim, before, queue + [item], room, left - 1, items + [item], chains)
  {
    var i := |items|;
    PickPrefix(items, item, Singles(claim, i));
    forall k | k in chains ensures chains[k] == Pick(items + [item], KeyChain(claim, k, i + 1)) {
      PickPrefix(items, item, KeyChain(claim, k, i));
    }
  }
}
