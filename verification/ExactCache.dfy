/** internal/cache/exact.go as it is written: an intrusive doubly linked list threaded through
    a map of maps. Get and Put are proved to act as Get and Put of RecencyList do on one list,
    and never to share a buffer with a caller. */
module ExactCache {
  import opened Common
  import L = RecencyList

  datatype ExactKey = ExactKey(model: string, hash: string)

  datatype Outcome = EventMiss | EventExactHit | EventStored | EventEvicted

  /** A stored answer: its payloads are buffers somebody may still write to. */
  class Entry {
    const body: array<char>
    const frames: array<array<char>>
    const usd: real
    const provider: string
    const model: string
    var storedAt: int
    /** Every object this answer is made of. */
    ghost const parts: set<object>

    ghost predicate Valid()
      reads frames
    {
      this in parts && body in parts && frames in parts && forall i :: 0 <= i < frames.Length ==> frames[i] in parts
    }

    ghost function View(): L.Payload
      requires Valid()
      reads parts, frames
    {
      L.Payload(body[..], Texts(frames[..], parts), usd, provider, model, storedAt)
    }

    /** An answer without a time of its own takes the time it is stored at. */
    method Stamp(now: int)
      requires Valid()
      modifies `storedAt
      ensures Valid() && View() == Stamped(old(View()), now)
    {
      if storedAt == 0 {
        storedAt := now;
        assert Texts(frames[..], parts) == old(Texts(frames[..], parts));
      }
    }

    constructor (body: array<char>, frames: array<array<char>>, usd: real, provider: string, model: string,
                 storedAt: int, ghost buffers: set<object>)
      requires body in buffers && frames in buffers && forall i :: 0 <= i < frames.Length ==> frames[i] in buffers
      ensures Valid() && parts == {this} + buffers
      ensures View() == L.Payload(body[..], Texts(frames[..], parts), usd, provider, model, storedAt)
    {
      this.body, this.frames, this.usd := body, frames, usd;
      this.provider, this.model, this.storedAt := provider, model, storedAt;
      parts := {this} + buffers;
    }
  }

  function Stamped(p: L.Payload, now: int): L.Payload {
    if p.storedAt == 0 then p.(storedAt := now) else p
  }

  ghost function Texts(bufs: seq<array<char>>, parts: set<object>): (fs: seq<string>)
    requires forall i :: 0 <= i < |bufs| ==> bufs[i] in parts
    reads parts
    ensures |fs| == |bufs|
    ensures forall i :: 0 <= i < |bufs| ==> fs[i] == bufs[i][..]
  {
    if bufs == [] then [] else [bufs[0][..]] + Texts(bufs[1..], parts)
  }

  method Clone(b: array<char>) returns (c: array<char>)
    ensures fresh(c) && c[..] == b[..]
  {
    c := new char[b.Length];
    for i := 0 to b.Length
      invariant c[..i] == b[..i]
    {
      c[i] := b[i];
    }
    assert c[..] == c[..b.Length] && b[..] == b[..b.Length];
  }

  method CloneFrames(frames: array<array<char>>) returns (dup: array<array<char>>)
    ensures fresh(dup) && dup.Length == frames.Length
    ensures forall j :: 0 <= j < dup.Length ==> fresh(dup[j]) && dup[j][..] == frames[j][..]
  {
    var none := new char[0];
    dup := new array<char>[frames.Length](_ => none);
    for i := 0 to frames.Length
      invariant fresh(dup) && dup.Length == frames.Length
      invariant forall j :: 0 <= j < dup.Length ==> fresh(dup[j])
      invariant forall j :: 0 <= j < i ==> dup[j][..] == frames[j][..]
    {
      dup[i] := Clone(frames[i]);
    }
  }

  /** A copy whose body, frame list and frames are all new. */
  method Snapshot(e: Entry) returns (dup: Entry)
    requires e.Valid()
    ensures fresh(dup) && fresh(dup.parts) && dup.Valid() && dup.View() == e.View()
  {
    var body := Clone(e.body);
    var frames := CloneFrames(e.frames);
    ghost var buffers: set<object> := set i | 0 <= i < frames.Length :: frames[i];
    buffers := buffers + {body as object, frames};
    dup := new Entry(body, frames, e.usd, e.provider, e.model, e.storedAt, buffers);
    assert Texts(dup.frames[..], dup.parts) == Texts(e.frames[..], e.parts);
  }

  /** One element of the linked list: the answer it holds and its two neighbours. */
  class Node {
    const tenant: string
    const key: ExactKey
    var entry: Entry
    var expiresAt: int
    var prev: Node?
    var next: Node?

    constructor (tenant: string, key: ExactKey, entry: Entry, expiresAt: int)
      ensures this.tenant == tenant && this.key == key && this.entry == entry && this.expiresAt == expiresAt
    {
      this.tenant, this.key, this.entry, this.expiresAt := tenant, key, entry, expiresAt;
      prev, next := null, null;
    }

    function Key(): L.Key { L.Key(tenant, key.model, key.hash) }

    /** This node stands for item, and keeps it in objects of stored. */
    ghost predicate Holds(item: L.Item, stored: set<object>)
      reads `entry, `expiresAt, stored
    {
      && entry.frames in stored && entry.Valid() && entry.parts <= stored
      && item == L.Item(Key(), entry.View(), expiresAt)
    }
  }

  /** The nodes stand for the items, one by one. */
  ghost predicate AllHold(ns: seq<Node>, items: L.Items, stored: set<object>)
    reads ns`entry, ns`expiresAt, stored
  {
    if ns == [] || items == [] then ns == [] && items == []
    else ns[0].Holds(items[0], stored) && AllHold(ns[1..], items[1..], stored)
  }

  lemma {:induction false} AllHoldAt(ns: seq<Node>, items: L.Items, stored: set<object>)
    requires AllHold(ns, items, stored)
    ensures |ns| == |items| && forall i :: 0 <= i < |ns| ==> ns[i].Holds(items[i], stored)
  {
    if ns != [] { AllHoldAt(ns[1..], items[1..], stored); }
  }

  lemma {:induction false} AllHoldWithout(ns: seq<Node>, items: L.Items, stored: set<object>, i: nat)
    requires AllHold(ns, items, stored) && i < |ns| && |items| == |ns|
    ensures AllHold(L.RemoveAt(ns, i), L.RemoveAt(items, i), stored)
  {
    if i == 0 {
      assert L.RemoveAt(ns, i) == ns[1..] && L.RemoveAt(items, i) == items[1..];
    } else {
      AllHoldWithout(ns[1..], items[1..], stored, i - 1);
      assert L.RemoveAt(ns, i)[1..] == L.RemoveAt(ns[1..], i - 1);
      assert L.RemoveAt(items, i)[1..] == L.RemoveAt(items[1..], i - 1);
    }
  }

  lemma {:induction false} AllHoldMore(ns: seq<Node>, items: L.Items, stored: set<object>, more: set<object>)
    requires AllHold(ns, items, stored) && stored <= more
    ensures AllHold(ns, items, more)
  {
    if ns != [] { AllHoldMore(ns[1..], items[1..], stored, more); }
  }

  lemma AllHoldFront(node: Node, item: L.Item, ns: seq<Node>, items: L.Items, stored: set<object>)
    requires AllHold(ns, items, stored) && node.Holds(item, stored)
    ensures AllHold([node] + ns, [item] + items, stored)
  {
    assert ([node] + ns)[1..] == ns && ([item] + items)[1..] == items;
  }

  /** ns, from head to tail, is what the prev and next pointers spell out. */
  ghost predicate Chain(ns: seq<Node>, head: Node?, tail: Node?)
    reads ns`prev, ns`next
  {
    && (forall i, j :: 0 <= i < j < |ns| ==> ns[i] != ns[j])
    && (if ns == [] then head == null == tail
        else head == ns[0] && tail == ns[|ns| - 1] && ns[0].prev == null && ns[|ns| - 1].next == null)
    && (forall i {:trigger ns[i].prev} :: 0 < i < |ns| ==> ns[i].prev == ns[i - 1])
    && (forall i {:trigger ns[i].next} :: 0 <= i < |ns| - 1 ==> ns[i].next == ns[i + 1])
  }

  type Tenants = map<string, map<ExactKey, Node>>

  function At(m: Tenants, t: string, k: ExactKey): Option<Node> {
    if t in m && k in m[t] then Some(m[t][k]) else None
  }

  /** The per-tenant maps hold exactly the nodes of ns, and no emptied map remains. */
  ghost predicate Indexed(m: Tenants, ns: set<Node>) {
    && (forall n {:trigger At(m, n.tenant, n.key)} :: n in ns ==> At(m, n.tenant, n.key) == Some(n))
    && (forall t, k :: At(m, t, k).Some? ==>
          var n := At(m, t, k).value; n in ns && n.tenant == t && n.key == k)
    && (forall t :: t in m ==> |m[t]| > 0)
  }

  function Without(m: Tenants, t: string, k: ExactKey): Tenants {
    if t !in m then m
    else var byKey := m[t] - {k};
         if |byKey| == 0 then m - {t} else m[t := byKey]
  }

  lemma WithoutAt(m: Tenants, t: string, k: ExactKey, t': string, k': ExactKey)
    ensures At(Without(m, t, k), t', k') == if t' == t && k' == k then None else At(m, t', k')
  {
    if t in m && t' == t && k' != k && k' in m[t] {
      assert k' in m[t] - {k};
    }
  }

  lemma WithoutIndexed(m: Tenants, ns: set<Node>, node: Node)
    requires Indexed(m, ns) && node in ns
    ensures Indexed(Without(m, node.tenant, node.key), ns - {node})
  {
    var m' := Without(m, node.tenant, node.key);
    forall t, k ensures At(m', t, k) == if t == node.tenant && k == node.key then None else At(m, t, k) {
      WithoutAt(m, node.tenant, node.key, t, k);
    }
    assert At(m, node.tenant, node.key) == Some(node);
    forall n | n in ns - {node} ensures At(m', n.tenant, n.key) == Some(n) {
      assert At(m, n.tenant, n.key) == Some(n);
    }
  }

  function With(m: Tenants, node: Node): Tenants {
    var byKey: map<ExactKey, Node> := if node.tenant in m then m[node.tenant] else map[];
    m[node.tenant := byKey[node.key := node]]
  }

  lemma WithIndexed(m: Tenants, ns: set<Node>, node: Node)
    requires Indexed(m, ns) && At(m, node.tenant, node.key).None?
    ensures Indexed(With(m, node), ns + {node})
  {
    var m' := With(m, node);
    assert node.key in m'[node.tenant];
    forall t, k ensures At(m', t, k) == if t == node.tenant && k == node.key then Some(node) else At(m, t, k) { }
  }

  class Exact {
    var byTenant: map<string, map<ExactKey, Node>>
    var head: Node?
    var tail: Node?
    var size: int
    const maxEntries: int
    const ttl: int
    /** What has been reported to OnEvent. */
    var events: seq<Outcome>
    /** The recency order, as nodes and as what they stand for; the same nodes as a set; and the
        objects the stored answers are made of. */
    ghost var nodes: seq<Node>
    ghost var items: L.Items
    ghost var listed: set<Node>
    ghost var stored: set<object>

    /** Pointers, maps and count all describe the same nodes. */
    ghost predicate Structured()
      reads `byTenant, `head, `tail, `size, `nodes, `listed, nodes`prev, nodes`next
    {
      && (forall i :: 0 <= i < |nodes| ==> nodes[i] in listed)
      && Chain(nodes, head, tail)
      && Indexed(byTenant, listed)
      && size == |nodes| == |listed|
    }

    /** What the stored answers are made of is no part of the list. */
    ghost predicate Apart()
      reads `listed, `stored
    {
      this !in stored && forall n :: n in listed ==> n !in stored
    }

    ghost predicate Sound()
      reads `byTenant, `head, `tail, `size, `nodes, `items, `listed, `stored, nodes, listed, stored
    {
      Structured() && Apart() && AllHold(nodes, items, stored)
    }

    ghost predicate Valid()
      reads `byTenant, `head, `tail, `size, `nodes, `items, `listed, `stored, nodes, listed, stored
    {
      Sound() && 0 < maxEntries && size <= maxEntries
    }

    constructor (maxEntries: int, ttl: int)
      ensures Valid() && items == [] && events == []
      ensures this.maxEntries == if maxEntries <= 0 then 4096 else maxEntries
      ensures this.ttl == if ttl <= 0 then 300_000_000_000 else ttl
    {
      this.maxEntries := if maxEntries <= 0 then 4096 else maxEntries;
      this.ttl := if ttl <= 0 then 300_000_000_000 else ttl;
      byTenant, head, tail, size := map[], null, null, 0;
      nodes, items, listed, stored, events := [], [], {}, {}, [];
    }

    /** Takes node out of the recency order. */
    method Unlink(node: Node, ghost i: nat)
      requires Chain(nodes, head, tail) && i < |nodes| && nodes[i] == node
      requires forall j :: 0 <= j < |nodes| ==> nodes[j] in listed
      modifies `head, `tail, `nodes, listed`prev, listed`next
      ensures nodes == L.RemoveAt(old(nodes), i) && Chain(nodes, head, tail)
    {
      assert i > 0 ==> node.prev == nodes[i - 1];
      assert i < |nodes| - 1 ==> node.next == nodes[i + 1];
      if node.prev != null {
        node.prev.next := node.next;
      } else if head == node {
        head := node.next;
      }
      if node.next != null {
        node.next.prev := node.prev;
      } else if tail == node {
        tail := node.prev;
      }
      node.prev := null;
      node.next := null;
      nodes := L.RemoveAt(nodes, i);
    }

    /** Makes node the most recently used. */
    method PushFront(node: Node)
      requires Chain(nodes, head, tail) && node !in nodes
      requires forall j :: 0 <= j < |nodes| ==> nodes[j] in listed
      modifies `head, `tail, `nodes, listed`prev, node`prev, node`next
      ensures nodes == [node] + old(nodes) && Chain(nodes, head, tail)
    {
      node.prev := null;
      node.next := head;
      if head != null {
        head.prev := node;
      }
      head := node;
      if tail == null {
        tail := node;
      }
      nodes := [node] + nodes;
    }

    /** Takes node out of its tenant's map. An emptied map is deleted too. */
    method Unindex(node: Node)
      modifies `byTenant
      ensures byTenant == Without(old(byTenant), node.tenant, node.key)
    {
      if node.tenant in byTenant {
        var byKey := byTenant[node.tenant] - {node.key};
        byTenant := byTenant[node.tenant := byKey];
        if |byKey| == 0 {
          byTenant := byTenant - {node.tenant};
        }
      }
    }

    method Delist(node: Node)
      requires Indexed(byTenant, listed) && node in listed
      modifies `byTenant, `listed
      ensures listed == old(listed) - {node} && Indexed(byTenant, listed)
    {
      WithoutIndexed(byTenant, listed, node);
      listed := listed - {node};
      Unindex(node);
    }

    /** Takes listed node number i out of list and maps alike. */
    method Drop(node: Node, ghost i: nat)
      requires Structured() && i < |nodes| && nodes[i] == node
      modifies `byTenant, `size, `head, `tail, `nodes, `listed, listed`prev, listed`next
      ensures Structured() && size == old(size) - 1
      ensures nodes == L.RemoveAt(old(nodes), i) && listed == old(listed) - {node}
    {
      Unlink(node, i);
      Delist(node);
      L.RemovedKept(old(nodes), i);
      size := size - 1;
    }

    /** Makes a listed node the most recently used. */
    method Touch(node: Node, ghost i: nat)
      requires Structured() && i < |nodes| && nodes[i] == node
      modifies `head, `tail, `nodes, listed`prev, listed`next
      ensures Structured()
      ensures nodes == [node] + L.RemoveAt(old(nodes), i)
    {
      L.RemovedKept(nodes, i);
      Unlink(node, i);
      PushFront(node);
    }

    /** The node under k in its tenant's own map, and where it stands in the order. */
    method Find(k: L.Key) returns (node: Node?, ghost i: int)
      requires Structured() && AllHold(nodes, items, stored)
      ensures i == L.IndexOf(items, k) && (node == null <==> i < 0)
      ensures node != null ==> i < |nodes| == |items| && nodes[i] == node && node.Holds(items[i], stored) && node.Key() == k
      ensures node == null ==> At(byTenant, k.tenant, ExactKey(k.model, k.hash)).None?
    {
      var bodyKey := ExactKey(k.model, k.hash);
      if k.tenant !in byTenant || bodyKey !in byTenant[k.tenant] {
        NotListed(k);
        return null, L.IndexOf(items, k);
      }
      node := byTenant[k.tenant][bodyKey];
      assert At(byTenant, k.tenant, bodyKey) == Some(node);
      i := Located(node);
      AllHoldAt(nodes, items, stored);
      IndexOfNode(i);
    }

    ghost method Record(kept: L.Items)
      requires Structured() && Apart() && AllHold(nodes, kept, stored)
      modifies `items
      ensures Sound() && items == kept
    {
      items := kept;
    }

    method Remove(node: Node, ghost i: nat)
      requires Sound() && i < |nodes| == |items| && nodes[i] == node
      modifies `byTenant, `size, `head, `tail, `nodes, `items, `listed, listed`prev, listed`next
      ensures Sound() && items == L.RemoveAt(old(items), i) && size == old(size) - 1 && listed <= old(listed)
    {
      AllHoldWithout(nodes, items, stored, i);
      ghost var kept := L.RemoveAt(items, i);
      DropHeld(node, i, kept);
      Record(kept);
    }

    method DropHeld(node: Node, ghost i: nat, ghost kept: L.Items)
      requires Structured() && Apart() && i < |nodes| && nodes[i] == node
      requires AllHold(L.RemoveAt(nodes, i), kept, stored)
      modifies `byTenant, `size, `head, `tail, `nodes, `listed, listed`prev, listed`next
      ensures Structured() && Apart() && nodes == L.RemoveAt(old(nodes), i)
      ensures AllHold(nodes, kept, stored) && size == old(size) - 1 && listed <= old(listed)
    {
      Drop(node, i);
    }

    method Renew(node: Node, ghost i: nat)
      requires Valid() && i < |nodes| == |items| && nodes[i] == node
      modifies `head, `tail, `nodes, `items, listed`prev, listed`next
      ensures Valid() && items == [old(items[i])] + L.RemoveAt(old(items), i)
      ensures node.Holds(items[0], stored)
    {
      AllHoldAt(nodes, items, stored);
      AllHoldWithout(nodes, items, stored, i);
      AllHoldFront(node, items[i], L.RemoveAt(nodes, i), L.RemoveAt(items, i), stored);
      items := [items[i]] + L.RemoveAt(items, i);
      TouchHeld(node, i, items);
      AllHoldAt(nodes, items, stored);
    }

    /** A live entry moves to the front and leaves as a copy. */
    method Serve(node: Node, ghost i: nat) returns (r: Entry)
      requires Valid() && i < |nodes| == |items| && nodes[i] == node
      modifies `head, `tail, `nodes, `items, listed`prev, listed`next
      ensures Valid() && items == [old(items[i])] + L.RemoveAt(old(items), i)
      ensures fresh(r.parts) && r.Valid() && r.View() == old(items[i]).payload
    {
      Renew(node, i);
      r := Snapshot(node.entry);
    }

    method TouchHeld(node: Node, ghost i: nat, ghost kept: L.Items)
      requires Structured() && Apart() && i < |nodes| && nodes[i] == node
      requires AllHold([node] + L.RemoveAt(nodes, i), kept, stored)
      modifies `head, `tail, `nodes, listed`prev, listed`next
      ensures Structured() && Apart() && nodes == [node] + L.RemoveAt(old(nodes), i)
      ensures AllHold(nodes, kept, stored)
    {
      Touch(node, i);
    }

    /** Get, as far as the list and the stored answer go: an expired entry is dropped on the way
        out, a live one is copied out. */
    method Lookup(k: L.Key, now: int) returns (r: Entry?)
      requires Valid()
      modifies `byTenant, `size, `head, `tail, `nodes, `items, `listed, listed`prev, listed`next
      ensures Valid() && items == L.Get(old(items), k, now).0
      ensures r == null <==> L.Get(old(items), k, now).1.None?
      ensures r != null ==> fresh(r.parts) && r.Valid() && r.View() == L.Get(old(items), k, now).1.value
    {
      var node: Node?;
      ghost var i: int;
      node, i := Find(k);
      if node == null {
        return null;
      }
      if now >= node.expiresAt {
        Remove(node, i);
        return null;
      }
      r := Serve(node, i);
    }

    /** The buffers of entry become the cache's own. */
    ghost method Adopt(entry: Entry, ns: seq<Node>, kept: L.Items)
      requires Structured() && Apart() && AllHold(ns, kept, stored)
      requires entry.Valid() && this !in entry.parts && (forall n :: n in listed ==> n !in entry.parts)
      modifies `stored
      ensures Structured() && stored == old(stored) + entry.parts && Apart() && AllHold(ns, kept, stored)
    {
      AllHoldMore(ns, kept, stored, stored + entry.parts);
      stored := stored + entry.parts;
    }

    method SetEntry(node: Node, entry: Entry, expiresAt: int, ghost ns: seq<Node>, ghost kept: L.Items)
      requires Structured() && node !in ns && node !in stored && AllHold(ns, kept, stored)
      requires entry.Valid() && entry.parts <= stored
      modifies node`entry, node`expiresAt
      ensures Structured()
      ensures AllHold([node] + ns, [L.Item(node.Key(), old(entry.View()), expiresAt)] + kept, stored)
    {
      node.entry := entry;
      node.expiresAt := expiresAt;
      assert entry.frames in entry.parts;
      AllHoldFront(node, L.Item(node.Key(), entry.View(), expiresAt), ns, kept, stored);
    }

    /** The new answer takes over a node already held under its key. */
    method Refill(node: Node, ghost i: nat, entry: Entry, expiresAt: int)
      requires Sound() && i < |nodes| == |items| && nodes[i] == node
      requires entry.Valid() && entry.parts <= stored
      modifies node`entry, node`expiresAt
      ensures Structured() && Apart()
      ensures AllHold([node] + L.RemoveAt(nodes, i),
                      [L.Item(node.Key(), old(entry.View()), expiresAt)] + L.RemoveAt(items, i), stored)
    {
      ghost var rest, kept := L.RemoveAt(nodes, i), L.RemoveAt(items, i);
      assert node !in rest by { L.RemovedKept(nodes, i); }
      AllHoldWithout(nodes, items, stored, i);
      SetEntry(node, entry, expiresAt, rest, kept);
    }

    method Replace(node: Node, ghost i: nat, entry: Entry, expiresAt: int)
      requires Valid() && i < |nodes| == |items| && nodes[i] == node
      requires entry.Valid() && entry.parts <= stored
      modifies node`entry, node`expiresAt, `head, `tail, `nodes, `items, listed`prev, listed`next
      ensures Valid()
      ensures items == [L.Item(node.Key(), old(entry.View()), expiresAt)] + L.RemoveAt(old(items), i)
    {
      ghost var item := L.Item(node.Key(), entry.View(), expiresAt);
      Refill(node, i, entry, expiresAt);
      ghost var kept := [item] + L.RemoveAt(items, i);
      TouchHeld(node, i, kept);
      Record(kept);
    }

    /** Puts node in its tenant's map, making the map if this is its first node. */
    method Index(node: Node)
      requires Indexed(byTenant, listed) && At(byTenant, node.tenant, node.key).None?
      modifies `byTenant, `listed
      ensures listed == old(listed) + {node} && Indexed(byTenant, listed)
    {
      WithIndexed(byTenant, listed, node);
      listed := listed + {node};
      IndexInMap(node);
    }

    method IndexInMap(node: Node)
      modifies `byTenant
      ensures byTenant == With(old(byTenant), node)
    {
      var byKey: map<ExactKey, Node> := map[];
      if node.tenant in byTenant {
        byKey := byTenant[node.tenant];
      }
      byTenant := byTenant[node.tenant := byKey[node.key := node]];
    }

    method Attach(node: Node)
      requires Structured() && At(byTenant, node.tenant, node.key).None? && node !in listed
      modifies `byTenant, `listed, `head, `tail, `nodes, `size, listed`prev, node`prev, node`next
      ensures Structured() && nodes == [node] + old(nodes) && listed == old(listed) + {node} && size == old(size) + 1
    {
      assert node !in nodes;
      PushFront(node);
      Index(node);
      size := size + 1;
    }

    method AttachHeld(node: Node, ghost kept: L.Items)
      requires Structured() && Apart() && At(byTenant, node.tenant, node.key).None?
      requires node !in listed && node !in stored && AllHold([node] + nodes, kept, stored)
      modifies `byTenant, `listed, `head, `tail, `nodes, `size, listed`prev, node`prev, node`next
      ensures Structured() && Apart() && AllHold(nodes, kept, stored) && size == old(size) + 1
      ensures listed == old(listed) + {node}
    {
      Attach(node);
    }

    method MakeNode(k: L.Key, entry: Entry, expiresAt: int) returns (node: Node)
      requires Structured() && AllHold(nodes, items, stored) && entry.Valid() && entry.parts <= stored
      ensures fresh(node) && node.tenant == k.tenant && node.key == ExactKey(k.model, k.hash)
      ensures Structured() && AllHold([node] + nodes, [L.Item(k, entry.View(), expiresAt)] + items, stored)
    {
      node := new Node(k.tenant, ExactKey(k.model, k.hash), entry, expiresAt);
      assert entry.frames in entry.parts;
      AllHoldFront(node, L.Item(k, entry.View(), expiresAt), nodes, items, stored);
    }

    method Add(k: L.Key, entry: Entry, expiresAt: int)
      requires Sound() && L.IndexOf(items, k) < 0
      requires At(byTenant, k.tenant, ExactKey(k.model, k.hash)).None?
      requires entry.Valid() && entry.parts <= stored
      modifies `byTenant, `listed, `head, `tail, `nodes, `items, `size, listed`prev
      ensures Sound() && items == [L.Item(k, old(entry.View()), expiresAt)] + old(items) && size == old(size) + 1
      ensures fresh(listed - old(listed))
    {
      ghost var kept := [L.Item(k, entry.View(), expiresAt)] + items;
      var node := AddHeld(k, entry, expiresAt);
      Record(kept);
    }

    method AddHeld(k: L.Key, entry: Entry, expiresAt: int) returns (node: Node)
      requires Structured() && Apart() && AllHold(nodes, items, stored)
      requires At(byTenant, k.tenant, ExactKey(k.model, k.hash)).None?
      requires entry.Valid() && entry.parts <= stored
      modifies `byTenant, `listed, `head, `tail, `nodes, `size, listed`prev
      ensures Structured() && Apart() && size == old(size) + 1
      ensures fresh(node) && listed == old(listed) + {node}
      ensures AllHold(nodes, [L.Item(k, old(entry.View()), expiresAt)] + items, stored)
    {
      ghost var kept := [L.Item(k, entry.View(), expiresAt)] + items;
      node := MakeNode(k, entry, expiresAt);
      AttachHeld(node, kept);
    }

    lemma SizeIs()
      requires Sound()
      ensures size == |items|
    {
      AllHoldAt(nodes, items, stored);
    }

    method DropTail(node: Node)
      requires Sound() && tail == node
      modifies `byTenant, `size, `head, `tail, `nodes, `items, `listed, listed`prev, listed`next
      ensures Sound() && size == old(size) - 1 && listed <= old(listed)
      ensures 0 < |old(items)| == old(size) && items == old(items)[..size] <= old(items)
    {
      AllHoldAt(nodes, items, stored);
      Remove(node, |nodes| - 1);
    }

    /** Drops least recently used entries until the bound holds. */
    method Evict() returns (evicted: nat)
      requires Sound() && 0 < maxEntries
      modifies `byTenant, `size, `head, `tail, `nodes, `items, `listed, listed`prev, listed`next
      ensures Valid()
      ensures items == if |old(items)| > maxEntries then old(items)[..maxEntries] else old(items)
      ensures evicted == |old(items)| - |items|
    {
      evicted := 0;
      SizeIs();
      ghost var all := items;
      while size > maxEntries && tail != null
        invariant Sound() && 0 <= size == |items| <= |all| && items <= all
        invariant size >= maxEntries || size == |all|
        invariant evicted == |all| - |items| && listed <= old(listed)
        decreases size
      {
        DropTail(tail);
        evicted := evicted + 1;
      }
      assert items == all[..|items|];
    }

    /** Stamping an answer that is not stored disturbs nothing that is. */
    method StampApart(entry: Entry, now: int)
      requires Valid() && entry.Valid() && entry !in stored
      modifies entry`storedAt
      ensures Valid() && entry.Valid() && entry.View() == Stamped(old(entry.View()), now)
    {
      entry.Stamp(now);
    }

    method AddAndEvict(k: L.Key, entry: Entry, expiresAt: int) returns (evicted: nat)
      requires Valid() && L.IndexOf(items, k) < 0
      requires At(byTenant, k.tenant, ExactKey(k.model, k.hash)).None?
      requires entry.Valid() && entry.parts <= stored
      modifies `byTenant, `listed, `head, `tail, `nodes, `items, `size, listed`prev, listed`next
      ensures Valid() && items == L.Put(old(items), L.Item(k, old(entry.View()), expiresAt), maxEntries)
      ensures evicted == |old(items)| + 1 - |items|
    {
      SizeIs();
      Add(k, entry, expiresAt);
      evicted := Evict();
    }

    method InsertStamped(k: L.Key, entry: Entry, expiresAt: int, ghost item: L.Item) returns (evicted: nat)
      requires Valid() && entry.Valid() && entry.parts <= stored && item == L.Item(k, entry.View(), expiresAt)
      modifies `byTenant, `size, `head, `tail, `nodes, `items, `listed, listed`prev, listed`next, listed`entry, listed`expiresAt
      ensures Valid() && items == L.Put(old(items), item, maxEntries)
      ensures evicted == |L.FrontLoaded(old(items), item)| - |items|
    {
      var node: Node?;
      ghost var i: int;
      node, i := Find(k);
      if node != null {
        Replace(node, i, entry, expiresAt);
        evicted := 0;
      } else {
        evicted := AddAndEvict(k, entry, expiresAt);
      }
    }

    /** The answer is stamped and its buffers become the cache's own. */
    method TakeIn(entry: Entry, now: int)
      requires Valid() && entry.Valid() && entry !in stored
      requires this !in entry.parts && (forall n :: n in listed ==> n !in entry.parts)
      modifies `stored, entry`storedAt
      ensures Valid() && stored == old(stored) + entry.parts
      ensures entry.Valid() && entry.View() == Stamped(old(entry.View()), now)
    {
      StampApart(entry, now);
      Adopt(entry, nodes, items);
    }

    /** Stores entry, already a copy, and tells how many entries made room for it. */
    method Insert(k: L.Key, entry: Entry, now: int) returns (evicted: nat)
      requires Valid() && entry.Valid() && entry !in stored
      requires this !in entry.parts && (forall n :: n in listed ==> n !in entry.parts)
      modifies `byTenant, `size, `head, `tail, `nodes, `items, `listed, `stored, listed`prev, listed`next, listed`entry, listed`expiresAt, entry`storedAt
      ensures Valid() && stored == old(stored) + entry.parts
      ensures items == L.Put(old(items), L.Item(k, Stamped(old(entry.View()), now), now + ttl), maxEntries)
      ensures evicted == |L.FrontLoaded(old(items), L.Item(k, Stamped(old(entry.View()), now), now + ttl))| - |items|
    {
      ghost var item := L.Item(k, Stamped(entry.View(), now), now + ttl);
      TakeIn(entry, now);
      evicted := InsertStamped(k, entry, now + ttl, item);
    }

    method Emit(ev: Outcome)
      requires Valid()
      modifies `events
      ensures Valid() && events == old(events) + [ev]
    {
      events := events + [ev];
    }

    /** Get acts on the list as RecencyList.Get does; what it returns shares nothing with what is
        stored, and is reported as one hit or one miss. */
    method Get(k: L.Key, now: int) returns (r: Entry?)
      requires Valid()
      modifies `byTenant, `size, `head, `tail, `nodes, `items, `listed, `events, listed`prev, listed`next
      ensures Valid() && items == L.Get(old(items), k, now).0
      ensures r == null <==> L.Get(old(items), k, now).1.None?
      ensures r != null ==> r.Valid() && r.View() == L.Get(old(items), k, now).1.value
      ensures r != null ==> fresh(r.parts) && r.parts !! stored
      ensures events == old(events) + [if r == null then EventMiss else EventExactHit]
    {
      r := Lookup(k, now);
      Emit(if r == null then EventMiss else EventExactHit);
    }

    /** Put acts on the list as RecencyList.Put does, on a copy: nothing of e is kept. */
    method Put(k: L.Key, e: Entry?, now: int)
      requires Valid() && (e != null ==> e.Valid())
      modifies `byTenant, `size, `head, `tail, `nodes, `items, `listed, `stored, `events, listed`prev, listed`next, listed`entry, listed`expiresAt
      ensures Valid() && fresh(stored - old(stored))
      ensures e == null ==> items == old(items) && events == old(events)
      ensures e != null ==>
                var p := old(e.View());
                var item := L.Item(k, if p.storedAt == 0 then p.(storedAt := now) else p, now + ttl);
                && items == L.Put(old(items), item, maxEntries)
                && events == old(events) + seq(|L.FrontLoaded(old(items), item)| - |items|, _ => EventEvicted) + [EventStored]
    {
      if e == null {
        return;
      }
      var evicted := PutCopy(k, e, now);
      EmitStored(evicted);
    }

    method PutCopy(k: L.Key, e: Entry, now: int) returns (evicted: nat)
      requires Valid() && e.Valid()
      modifies `byTenant, `size, `head, `tail, `nodes, `items, `listed, `stored, listed`prev, listed`next, listed`entry, listed`expiresAt
      ensures Valid() && fresh(stored - old(stored))
      ensures items == L.Put(old(items), L.Item(k, Stamped(old(e.View()), now), now + ttl), maxEntries)
      ensures evicted == |L.FrontLoaded(old(items), L.Item(k, Stamped(old(e.View()), now), now + ttl))| - |items|
    {
      var dup := Snapshot(e);
      evicted := Insert(k, dup, now);
    }

    method EmitStored(evicted: nat)
      requires Valid()
      modifies `events
      ensures Valid() && events == old(events) + seq(evicted, _ => EventEvicted) + [EventStored]
    {
      for i := 0 to evicted
        invariant Valid() && events == old(events) + seq(i, _ => EventEvicted)
      {
        Emit(EventEvicted);
      }
      Emit(EventStored);
    }

    method Len() returns (n: nat)
      requires Valid()
      ensures n == |items| <= maxEntries
    {
      SizeIs();
      n := size;
    }

    lemma Located(node: Node) returns (i: nat)
      requires Structured() && node in listed
      ensures i < |nodes| && nodes[i] == node
    {
      if forall j :: 0 <= j < |nodes| ==> nodes[j] != node {
        FewerThan(nodes, listed - {node});
        assert false;
      }
      i :| i < |nodes| && nodes[i] == node;
    }

    /** Keys tell the listed nodes apart, because the maps do. */
    lemma IndexOfNode(i: nat)
      requires Structured() && AllHold(nodes, items, stored) && i < |nodes| == |items|
      ensures L.IndexOf(items, nodes[i].Key()) == i
    {
      AllHoldAt(nodes, items, stored);
      assert items[i].key == nodes[i].Key();
      var j := L.IndexOf(items, nodes[i].Key());
      assert At(byTenant, nodes[i].tenant, nodes[i].key) == Some(nodes[i]);
      assert At(byTenant, nodes[j].tenant, nodes[j].key) == Some(nodes[j]);
    }

    lemma NotListed(k: L.Key)
      requires Structured() && AllHold(nodes, items, stored)
      requires At(byTenant, k.tenant, ExactKey(k.model, k.hash)).None?
      ensures L.IndexOf(items, k) < 0
    {
      AllHoldAt(nodes, items, stored);
      assert forall i :: 0 <= i < |nodes| ==>
        items[i].key == nodes[i].Key() && At(byTenant, nodes[i].tenant, nodes[i].key) == Some(nodes[i]);
    }
  }

  lemma FewerThan(ns: seq<Node>, s: set<Node>)
    requires forall i, j :: 0 <= i < j < |ns| ==> ns[i] != ns[j]
    requires forall i :: 0 <= i < |ns| ==> ns[i] in s
    ensures |ns| <= |s|
  {
    if ns != [] {
      forall i | 0 <= i < |ns[1..]| ensures ns[1..][i] in s - {ns[0]} {
        assert ns[1..][i] == ns[i + 1];
      }
      FewerThan(ns[1..], s - {ns[0]});
    }
  }
}
