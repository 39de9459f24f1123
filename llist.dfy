/**
 * Sequential model of the lock-less, NULL-terminated, intrusive singly linked
 * list of lib/llist.c.
 *
 * A `Head` holds the single `first` pointer; callers own `Node`s, each carrying
 * one `next` link. The atomic primitives `cmpxchg` and `xchg` on `head->first`
 * are modelled as single steps (`CompareExchange`, `Exchange`), and every
 * `do { ... } while (cmpxchg(...) != entry)` retry loop keeps its loop form:
 * with no other thread running, the compare-and-exchange sees the value just
 * read, so the loop exits after its first iteration.
 *
 * The public view of a head is the ghost sequence `Contents` of the nodes on
 * the chain from `first`, and `Repr`, the set of those nodes.
 */
module LockLessList {

  /** The link embedded in a caller's structure; the list reads and writes only `next`. */
  class Node {
    var next: Node?

    constructor ()
      ensures next == null
    {
      next := null;
    }
  }

  /** The node that a chain `nodes` followed by `tail` starts at. */
  function Front(nodes: seq<Node>, tail: Node?): Node?
  {
    if nodes == [] then tail else nodes[0]
  }

  /** Each node of `nodes` links to the next one, and the last one links to `tail`. */
  ghost predicate Linked(nodes: seq<Node>, tail: Node?)
    reads Elements(nodes)
  {
    forall i :: 0 <= i < |nodes| ==> nodes[i].next == Front(nodes[i + 1..], tail)
  }

  /** No node occurs twice in `nodes`. */
  ghost predicate Distinct(nodes: seq<Node>)
  {
    forall i, j :: 0 <= i < j < |nodes| ==> nodes[i] != nodes[j]
  }

  /** A chain that ends in NULL visits no node twice: it is acyclic. */
  lemma {:induction false} NullTerminatedIsAcyclic(nodes: seq<Node>)
    requires Linked(nodes, null)
    ensures Distinct(nodes)
  {
    if nodes != [] {
      var rest := nodes[1..];
      assert Linked(rest, null) by {
        forall i | 0 <= i < |rest|
          ensures rest[i].next == Front(rest[i + 1..], null)
        {
          assert rest[i + 1..] == nodes[i + 2..];
        }
      }
      NullTerminatedIsAcyclic(rest);
    }
  }

  /** The NULL-terminated chain reachable from a node is unique: it is fixed by the `next` fields alone. */
  lemma {:induction false} ChainDeterminedByFront(s: seq<Node>, t: seq<Node>)
    requires Linked(s, null) && Linked(t, null)
    requires Front(s, null) == Front(t, null)
    ensures s == t
  {
    if s != [] && t != [] {
      assert s[0].next == Front(s[1..], null);
      assert t[0].next == Front(t[1..], null);
      assert Linked(s[1..], null) by {
        forall i | 0 <= i < |s| - 1
          ensures s[1..][i].next == Front(s[1..][i + 1..], null)
        {
          assert s[1..][i + 1..] == s[i + 2..];
        }
      }
      assert Linked(t[1..], null) by {
        forall i | 0 <= i < |t| - 1
          ensures t[1..][i].next == Front(t[1..][i + 1..], null)
        {
          assert t[1..][i + 1..] == t[i + 2..];
        }
      }
      ChainDeterminedByFront(s[1..], t[1..]);
      assert s == [s[0]] + s[1..];
      assert t == [t[0]] + t[1..];
    }
  }

  /** Putting a chain that ends in the front of `rest` before `rest` gives one chain. */
  lemma LinkedConcat(front: seq<Node>, rest: seq<Node>, tail: Node?)
    requires Linked(front, Front(rest, tail)) && Linked(rest, tail)
    ensures Linked(front + rest, tail)
  {
    var all := front + rest;
    forall i | 0 <= i < |all|
      ensures all[i].next == Front(all[i + 1..], tail)
    {
      if i < |front| {
        assert all[i] == front[i];
        if i + 1 < |front| {
          assert all[i + 1..][0] == front[i + 1..][0];
        } else {
          assert all[i + 1..] == rest;
        }
      } else {
        assert all[i] == rest[i - |front|];
        assert all[i + 1..] == rest[i - |front| + 1..];
      }
    }
  }

  /** A batch whose last node now links to the front of `rest`, spliced before `rest`, is one chain. */
  lemma SpliceBatch(batch: seq<Node>, rest: seq<Node>)
    requires batch != []
    requires Linked(batch[..|batch| - 1], batch[|batch| - 1])
    requires batch[|batch| - 1].next == Front(rest, null) && Linked(rest, null)
    ensures Linked(batch + rest, null)
  {
    var k := |batch| - 1;
    LinkedConcat(batch[..k], [batch[k]], Front(rest, null));
    assert batch[..k] + [batch[k]] == batch;
    LinkedConcat(batch, rest, null);
  }

  /** The set of nodes on a chain. */
  ghost function Elements(nodes: seq<Node>): set<Node>
  {
    set n | n in nodes
  }

  /** `struct llist_head`: the shared entry point of one list. */
  class Head {
    var first: Node?
    ghost var Contents: seq<Node>
    ghost var Repr: set<Node>

    /** The chain from `first` is exactly `Contents`, ends in NULL, and `Repr` holds its nodes. */
    ghost predicate Valid()
      reads this, Repr
    {
      && Repr == Elements(Contents)
      && Linked(Contents, null)
      && first == Front(Contents, null)
    }

    /** `LLIST_HEAD_INIT`: an empty list. */
    constructor ()
      ensures Valid() && first == null && Contents == [] && Repr == {}
    {
      first := null;
      Contents := [];
      Repr := {};
    }

    /**
     * `cmpxchg(&head->first, expected, desired)` as one atomic step: `desired`
     * is installed only if `first` still equals `expected`; the value `first`
     * held is returned either way.
     */
    method CompareExchange(expected: Node?, desired: Node?) returns (seen: Node?)
      modifies this`first
      ensures seen == old(first)
      ensures first == if seen == expected then desired else seen
    {
      seen := first;
      if seen == expected {
        first := desired;
      }
    }

    /** `xchg(&head->first, desired)` as one atomic step: install `desired`, return the old value. */
    method Exchange(desired: Node?) returns (seen: Node?)
      modifies this`first
      ensures seen == old(first) && first == desired
    {
      seen := first;
      first := desired;
    }

    /** `llist_add`: push `node` on the front of the list. */
    method Add(node: Node)
      requires Valid()
      requires node !in Repr
      modifies this, node
      ensures Valid()
      ensures first == node && node.next == old(first)
      ensures Contents == [node] + old(Contents)
      ensures Repr == old(Repr) + {node}
    {
      var done := false;
      while !done
        invariant Valid()
        invariant !done ==> first == old(first) && Contents == old(Contents) && Repr == old(Repr)
        invariant done ==> first == node && node.next == old(first)
        invariant done ==> Contents == [node] + old(Contents) && Repr == old(Repr) + {node}
        decreases if done then 0 else 1
      {
        var entry := first;
        node.next := entry;
        var seen := CompareExchange(entry, node);
        if seen == entry {
          LinkedConcat([node], Contents, null);
          Contents := [node] + Contents;
          Repr := Repr + {node};
          done := true;
        }
      }
    }

    /**
     * `llist_add_batch`: splice the caller-built chain `batch`, which runs
     * from `newFirst` through `next` links to `newLast`, onto the front.
     */
    method AddBatch(newFirst: Node, newLast: Node, ghost batch: seq<Node>)
      requires Valid()
      requires batch != [] && batch[0] == newFirst && batch[|batch| - 1] == newLast
      requires Linked(batch[..|batch| - 1], newLast)
      requires newLast !in batch[..|batch| - 1]
      requires Elements(batch) !! Repr
      modifies this, newLast
      ensures Valid()
      ensures first == newFirst && newLast.next == old(first)
      ensures Contents == batch + old(Contents)
      ensures Repr == old(Repr) + Elements(batch)
    {
      var done := false;
      while !done
        invariant Valid()
        invariant Linked(batch[..|batch| - 1], newLast)
        invariant !done ==> first == old(first) && Contents == old(Contents) && Repr == old(Repr)
        invariant done ==> first == newFirst && newLast.next == old(first)
        invariant done ==> Contents == batch + old(Contents) && Repr == old(Repr) + Elements(batch)
        decreases if done then 0 else 1
      {
        var entry := first;
        assert newLast in Elements(batch);
        newLast.next := entry;
        var seen := CompareExchange(entry, newFirst);
        if seen == entry {
          SpliceBatch(batch, Contents);
          Contents := batch + Contents;
          Repr := Repr + Elements(batch);
          done := true;
        }
      }
    }

    /**
     * `llist_del_first`: detach the front node and return it, or return NULL
     * when the list is empty. The detached node's `next` is left as it was.
     */
    method DelFirst() returns (entry: Node?)
      requires Valid()
      modifies this
      ensures Valid()
      ensures entry == old(first)
      ensures old(Contents) == [] ==> entry == null && Contents == [] && first == null
      ensures old(Contents) != [] ==> entry == old(Contents)[0] && Contents == old(Contents)[1..]
      ensures entry != null ==> first == entry.next && Repr == old(Repr) - {entry}
    {
      entry := null;
      var done := false;
      while !done
        invariant Valid()
        invariant !done ==> first == old(first) && Contents == old(Contents) && Repr == old(Repr)
        invariant done ==> entry != null && entry == old(first) && first == entry.next
        invariant done ==> Contents == old(Contents)[1..] && Repr == old(Repr) - {entry}
        decreases if done then 0 else 1
      {
        entry := first;
        if entry == null {
          return;
        }
        var seen := CompareExchange(entry, entry.next);
        if seen == entry {
          NullTerminatedIsAcyclic(Contents);
          var rest := Contents[1..];
          assert Linked(rest, null) by {
            forall i | 0 <= i < |rest|
              ensures rest[i].next == Front(rest[i + 1..], null)
            {
              assert rest[i + 1..] == Contents[i + 2..];
            }
          }
          assert Elements(rest) == Repr - {entry} by {
            assert Contents == [entry] + rest;
          }
          Contents := rest;
          Repr := Repr - {entry};
          done := true;
        }
      }
    }

    /**
     * `llist_del_all`: detach the whole chain in one exchange. The returned
     * node starts the old contents, whose links are untouched; the list is empty.
     */
    method DelAll() returns (chain: Node?)
      requires Valid()
      modifies this
      ensures Valid()
      ensures first == null && Contents == [] && Repr == {}
      ensures chain == old(first) && chain == Front(old(Contents), null)
      ensures Linked(old(Contents), null)
    {
      chain := Exchange(null);
      Contents := [];
      Repr := {};
    }
  }

  /** Pushing A, B and C and then popping four times yields C, B, A and then NULL. */
  method LastInFirstOut(a: Node, b: Node, c: Node) returns (x: Node?, y: Node?, z: Node?, w: Node?)
    requires a != b && b != c && a != c
    modifies a, b, c
    ensures x == c && y == b && z == a && w == null
  {
    var head := new Head();
    head.Add(a);
    head.Add(b);
    head.Add(c);
    x := head.DelFirst();
    y := head.DelFirst();
    z := head.DelFirst();
    w := head.DelFirst();
  }

  /** After `llist_del_all`, both removal operations find the list empty. */
  method DrainLeavesEmpty(head: Head) returns (chain: Node?, one: Node?, all: Node?)
    requires head.Valid()
    modifies head
    ensures head.Valid() && head.Contents == []
    ensures chain == Front(old(head.Contents), null)
    ensures one == null && all == null
  {
    chain := head.DelAll();
    one := head.DelFirst();
    all := head.DelAll();
  }

  /** A pre-linked batch X -> Y -> Z spliced onto a list is drained as X, Y, Z and then the old contents. */
  method BatchThenDrain(head: Head, x: Node, y: Node, z: Node) returns (chain: Node?)
    requires head.Valid()
    requires x != y && y != z && x != z
    requires x !in head.Repr && y !in head.Repr && z !in head.Repr
    requires x.next == y && y.next == z
    modifies head, z
    ensures head.Valid() && head.Contents == []
    ensures chain == x && x.next == y && y.next == z && z.next == Front(old(head.Contents), null)
    ensures Linked([x, y, z] + old(head.Contents), null)
  {
    head.AddBatch(x, z, [x, y, z]);
    chain := head.DelAll();
  }
}
