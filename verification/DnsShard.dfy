/** A shard as it is stored, a map and a list of keys, and the list of entries it stands for. */
module DnsShard {
  import opened Wrappers
  import opened DnsCache

  datatype Shard = Shard(items: map<Key, Entry>, order: seq<Key>)

  predicate NoRepeats(order: seq<Key>) {
    forall i, j :: 0 <= i < j < |order| ==> order[i] != order[j]
  }

  /** The map and the list hold the same keys, and the list holds none twice. */
  ghost predicate Agrees(sh: Shard) {
    NoRepeats(sh.order) && forall key :: key in sh.items <==> key in sh.order
  }

  ghost function Nodes(items: map<Key, Entry>, order: seq<Key>): (l: seq<Node>)
    requires forall key :: key in order ==> key in items
    ensures |l| == |order|
    ensures forall i :: 0 <= i < |order| ==> l[i] == Node(order[i], items[order[i]])
  {
    if order == [] then [] else [Node(order[0], items[order[0]])] + Nodes(items, order[1..])
  }

  ghost function Contents(sh: Shard): (l: seq<Node>)
    requires Agrees(sh)
    ensures |l| == |sh.order|
  {
    Nodes(sh.items, sh.order)
  }

  /** The list without the element of `key`. */
  function Drop(order: seq<Key>, key: Key): seq<Key> {
    if order == [] then [] else if order[0] == key then order[1..] else [order[0]] + Drop(order[1..], key)
  }

  lemma {:induction false} DropMembers(order: seq<Key>, key: Key, x: Key)
    requires NoRepeats(order)
    ensures x in Drop(order, key) <==> x in order && x != key
    ensures NoRepeats(Drop(order, key))
    ensures key !in order ==> Drop(order, key) == order
  {
    if order != [] {
      assert order == [order[0]] + order[1..];
      DropMembers(order[1..], key, x);
      var r := Drop(order[1..], key);
      forall i | 0 <= i < |r| ensures order[0] != key ==> r[i] != order[0] {
        if order[0] != key {
          DropSubset(order[1..], key, r[i]);
        }
      }
    }
  }

  lemma {:induction false} DropSubset(order: seq<Key>, key: Key, x: Key)
    requires x in Drop(order, key)
    ensures x in order
  {
    if order != [] && order[0] != key && x != order[0] {
      DropSubset(order[1..], key, x);
    }
  }

  lemma {:induction false} SameItems(items: map<Key, Entry>, items1: map<Key, Entry>, order: seq<Key>)
    requires forall key :: key in order ==> key in items && key in items1 && items[key] == items1[key]
    ensures Nodes(items, order) == Nodes(items1, order)
  {
  }

  lemma {:induction false} NodesDrop(items: map<Key, Entry>, order: seq<Key>, key: Key)
    requires NoRepeats(order) && forall k :: k in order ==> k in items
    ensures (forall k :: k in Drop(order, key) ==> k in items)
        && Nodes(items, Drop(order, key)) == Without(Nodes(items, order), key)
  {
    forall k | k in Drop(order, key) ensures k in items { DropSubset(order, key, k); }
    if order != [] {
      NodesDrop(items, order[1..], key);
      assert Nodes(items, order)[1..] == Nodes(items, order[1..]);
      if order[0] == key {
        DropMembers(order[1..], key, key);
      } else {
        assert Drop(order, key)[1..] == Drop(order[1..], key);
      }
    }
  }

  lemma NodesPush(items: map<Key, Entry>, order: seq<Key>, key: Key)
    requires (forall k :: k in order ==> k in items) && key in items
    ensures (forall k :: k in order + [key] ==> k in items)
    ensures Nodes(items, order + [key]) == Nodes(items, order) + [Node(key, items[key])]
  {
  }

  lemma {:induction false} FindNodes(items: map<Key, Entry>, order: seq<Key>, key: Key)
    requires forall k :: k in order ==> k in items
    ensures Find(Nodes(items, order), key) == if key in order then Some(items[key]) else None
  {
    if order != [] {
      FindNodes(items, order[1..], key);
      assert Nodes(items, order)[1..] == Nodes(items, order[1..]);
    }
  }

  // ---------------------------------------------------------------------
  // The three changes of a shard, and what they are on the list of entries
  // ---------------------------------------------------------------------

  /** removeElementLocked. */
  function Removed(sh: Shard, key: Key): Shard {
    Shard(sh.items - {key}, Drop(sh.order, key))
  }

  /** An entry updated in its element, and the element moved to the back. */
  function Moved(sh: Shard, key: Key, e: Entry): Shard {
    Shard(sh.items[key := e], Drop(sh.order, key) + [key])
  }

  function Pushed(sh: Shard, key: Key, e: Entry): Shard {
    Shard(sh.items[key := e], sh.order + [key])
  }

  lemma RemovedIsWithout(sh: Shard, key: Key)
    requires Agrees(sh)
    ensures Agrees(Removed(sh, key)) && Contents(Removed(sh, key)) == Without(Contents(sh), key)
  {
    forall x ensures x in Drop(sh.order, key) <==> x in sh.order && x != key { DropMembers(sh.order, key, x); }
    DropMembers(sh.order, key, key);
    NodesDrop(sh.items, sh.order, key);
    SameItems(sh.items, sh.items - {key}, Drop(sh.order, key));
  }

  lemma PushedIsAppend(sh: Shard, key: Key, e: Entry)
    requires Agrees(sh) && key !in sh.items
    ensures Agrees(Pushed(sh, key, e)) && Contents(Pushed(sh, key, e)) == Contents(sh) + [Node(key, e)]
  {
    SameItems(sh.items, sh.items[key := e], sh.order);
    NodesPush(sh.items[key := e], sh.order, key);
  }

  lemma MovedIsUse(sh: Shard, key: Key, e: Entry)
    requires Agrees(sh)
    ensures Agrees(Moved(sh, key, e)) && Contents(Moved(sh, key, e)) == Use(Contents(sh), key, e)
  {
    RemovedIsWithout(sh, key);
    PushedIsAppend(Removed(sh, key), key, e);
    RemoveThenAdd(sh.items, key, e);
  }

  lemma RemoveThenAdd(items: map<Key, Entry>, key: Key, e: Entry)
    ensures (items - {key})[key := e] == items[key := e]
  {
  }

  lemma FindContents(sh: Shard, key: Key)
    requires Agrees(sh)
    ensures Find(Contents(sh), key) == if key in sh.items then Some(sh.items[key]) else None
  {
    FindNodes(sh.items, sh.order, key);
  }

  // ---------------------------------------------------------------------
  // Counting
  // ---------------------------------------------------------------------

  function PendingBit(o: Option<Entry>): nat {
    if o.Some? && o.value.status.Pending? then 1 else 0
  }

  lemma {:induction false} CountAppend(l: seq<Node>, n: Node)
    ensures CountPending(l + [n]) == CountPending(l) + PendingBit(Some(n.entry))
  {
    if l == [] {
      assert [] + [n] == [n];
      assert CountPending([n][1..]) == 0;
    } else {
      assert (l + [n])[1..] == l[1..] + [n];
      CountAppend(l[1..], n);
    }
  }

  lemma {:induction false} CountWithout(l: seq<Node>, key: Key)
    requires DistinctKeys(l)
    ensures CountPending(l) == CountPending(Without(l, key)) + PendingBit(Find(l, key))
  {
    if l != [] {
      CountWithout(l[1..], key);
      if l[0].key == key {
        NotThere(l, key);
      } else {
        assert Without(l, key)[1..] == Without(l[1..], key);
      }
    }
  }

  lemma NotThere(l: seq<Node>, key: Key)
    requires DistinctKeys(l) && l != [] && l[0].key == key
    ensures Find(l[1..], key) == None
  {
    FindHas(l[1..], key);
    assert forall i :: 0 <= i < |l[1..]| ==> l[1..][i] == l[i + 1];
  }

  lemma ContentsDistinct(sh: Shard)
    requires Agrees(sh)
    ensures DistinctKeys(Contents(sh))
  {
  }
}
