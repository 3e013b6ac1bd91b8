/** The registry of in-flight generation jobs: a node-based doubly linked
    list that keeps session ids in least-recently-used order, and a manager
    that pairs it with a map from session id to job state, holds at most
    `MaxConcurrentChats` entries for distinct sessions and cancels the job it
    evicts. */
module JobManager {
  import opened Wrappers
  import Ids

  /** A chat session's id. The manager only stores and compares ids. */
  type SessionId = Ids.Uuid

  /** `MAX_CONCURRENT_CHATS`. */
  const MaxConcurrentChats: nat := 5

  /** A list cell; `value` is fixed at creation, the links are rewired in place. */
  class Node {
    const value: SessionId
    var prev: Node?
    var next: Node?

    constructor (value: SessionId)
      ensures this.value == value && prev == null && next == null
    {
      this.value := value;
      prev := null;
      next := null;
    }
  }

  /** Position of a node in a sequence of nodes. */
  ghost function IndexOfNode(nodes: seq<Node>, n: Node): (i: nat)
    requires n in nodes
    ensures i < |nodes| && nodes[i] == n
  {
    var i :| 0 <= i < |nodes| && nodes[i] == n; i
  }

  /** `s` with its element at index `i` taken out. */
  function Without<T>(s: seq<T>, i: nat): (r: seq<T>)
    requires i < |s|
    ensures |r| == |s| - 1
    ensures forall k | 0 <= k < i :: r[k] == s[k]
    ensures forall k | i <= k < |r| :: r[k] == s[k + 1]
  {
    s[..i] + s[i + 1..]
  }

  /** The job of the id on the last node, when the map has an entry for it. */
  ghost function LastJob(nodes: seq<Node>, m: map<SessionId, JobState>): set<Job>
  {
    if nodes != [] && nodes[|nodes| - 1].value in m then {m[nodes[|nodes| - 1].value].job} else {}
  }

  /** Taking out index `i` leaves the same last job as dropping the last
      node only when it is the one at `i`, provided no other index holds
      that node. */
  lemma LastJobWithout(s: seq<Node>, i: nat, m: map<SessionId, JobState>)
    requires i < |s| && (i < |s| - 1 ==> s[i] != s[|s| - 1])
    ensures LastJob(Without(s, i), m) == LastJob(if s[|s| - 1] == s[i] then s[..|s| - 1] else s, m)
  {
  }

  /** The values held by `ns`, in order. */
  ghost function Values(ns: seq<Node>): (r: seq<SessionId>)
    ensures |r| == |ns| && forall k | 0 <= k < |ns| :: r[k] == ns[k].value
  {
    ValuesExist(ns);
    var r :| |r| == |ns| && forall k | 0 <= k < |ns| :: r[k] == ns[k].value; r
  }

  lemma ValuesExist(ns: seq<Node>)
    ensures exists r: seq<SessionId> :: |r| == |ns| && forall k | 0 <= k < |ns| :: r[k] == ns[k].value
  {
    var r := seq(|ns|, k requires 0 <= k < |ns| => ns[k].value);
    assert |r| == |ns| && forall k | 0 <= k < |ns| :: r[k] == ns[k].value;
  }

  lemma ValuesCons(n: Node, ns: seq<Node>)
    ensures Values([n] + ns) == [n.value] + Values(ns)
  {
    assert forall k | 0 < k < |ns| + 1 :: ([n] + ns)[k] == ns[k - 1];
  }

  lemma ValuesPrefix(ns: seq<Node>, k: nat)
    requires k <= |ns|
    ensures Values(ns[..k]) == Values(ns)[..k]
  {
  }

  lemma ValuesWithout(ns: seq<Node>, i: nat)
    requires i < |ns|
    ensures Values(Without(ns, i)) == Without(Values(ns), i)
  {
  }

  /** The head of a list of distinct nodes is found at index 0. */
  lemma FrontIndex(ns: seq<Node>)
    requires Distinct(ns) && ns != []
    ensures IndexOfNode(ns, ns[0]) == 0 && ns == [ns[0]] + Without(ns, 0)
  {
    var i := IndexOfNode(ns, ns[0]);
    assert i == 0 || Differ(ns, 0, i);
    assert ns == [ns[0]] + Without(ns, 0);
  }

  /** The elements at `a` and `b`, in this order, differ. */
  ghost predicate Differ<T>(s: seq<T>, a: int, b: int)
  {
    0 <= a < b < |s| && s[a] != s[b]
  }

  /** No element occurs twice. Each use names the pair through `Differ`,
      which keeps the solver from comparing every pair of indices it sees. */
  ghost predicate Distinct<T>(s: seq<T>)
  {
    forall a, b | 0 <= a < b < |s| :: Differ(s, a, b)
  }

  /** The nodes at `j` and `j + 1` point at each other. */
  ghost predicate LinkedAt(ns: seq<Node>, j: int)
    reads ns
  {
    0 <= j < |ns| - 1 && ns[j].next == ns[j + 1] && ns[j + 1].prev == ns[j]
  }

  /** Every `prev` and `next` link agrees with the order of `ns`. */
  ghost predicate LinksMatch(ns: seq<Node>)
    reads ns
  {
    && (ns != [] ==> ns[0].prev == null && ns[|ns| - 1].next == null)
    && (forall j | 0 <= j < |ns| - 1 :: LinkedAt(ns, j))
  }

  /** Taking one node out of a list of distinct nodes leaves the others,
      still distinct, and nothing else. */
  lemma WithoutMembers<T>(ns: seq<T>, i: nat)
    requires i < |ns| && Distinct(ns)
    ensures Distinct(Without(ns, i)) && ns[i] !in Without(ns, i)
  {
    var m := Without(ns, i);
    forall k | 0 <= k < |m|
      ensures m[k] != ns[i]
    {
      if k < i {
        assert m[k] == ns[k] && Differ(ns, k, i);
      } else {
        assert m[k] == ns[k + 1] && Differ(ns, i, k + 1);
      }
    }
    forall a, b | 0 <= a < b < |m|
      ensures Differ(m, a, b)
    {
      var a' := if a < i then a else a + 1;
      var b' := if b < i then b else b + 1;
      assert m[a] == ns[a'] && m[b] == ns[b'] && Differ(ns, a', b');
    }
  }

  /** Pushing an element that is not in `ns` in front keeps the elements distinct. */
  lemma DistinctCons<T>(n: T, ns: seq<T>)
    requires Distinct(ns) && n !in ns
    ensures Distinct([n] + ns)
  {
    var m := [n] + ns;
    forall a, b | 0 <= a < b < |m|
      ensures Differ(m, a, b)
    {
      assert m[b] == ns[b - 1];
      if a > 0 {
        assert m[a] == ns[a - 1] && Differ(ns, a - 1, b - 1);
      }
    }
  }

  /** The links after a fresh node is pushed in front of `ns`. */
  lemma LinksAfterAdd(ns: seq<Node>, n: Node)
    requires n.prev == null && n.next == if ns == [] then null else ns[0]
    requires ns != [] ==> ns[0].prev == n && ns[|ns| - 1].next == null
    requires forall j | 0 <= j < |ns| - 1 :: LinkedAt(ns, j)
    ensures LinksMatch([n] + ns)
  {
    var m := [n] + ns;
    forall j | 0 <= j < |m| - 1
      ensures LinkedAt(m, j)
    {
      if j > 0 {
        assert LinkedAt(ns, j - 1);
        assert m[j] == ns[j - 1] && m[j + 1] == ns[j];
      }
    }
    if ns != [] {
      assert m[|m| - 1] == ns[|ns| - 1];
    }
  }

  /** The links after the node at `i` is unlinked. */
  lemma LinksAfterRemove(ns: seq<Node>, i: nat)
    requires i < |ns|
    requires 0 < i < |ns| - 1 ==> ns[i - 1].next == ns[i + 1] && ns[i + 1].prev == ns[i - 1]
    requires i == 0 < |ns| - 1 ==> ns[1].prev == null
    requires 0 < i == |ns| - 1 ==> ns[i - 1].next == null
    requires 0 < i ==> ns[0].prev == null
    requires i < |ns| - 1 ==> ns[|ns| - 1].next == null
    requires forall j | 0 <= j < |ns| - 1 && j + 1 != i && j != i :: LinkedAt(ns, j)
    ensures LinksMatch(Without(ns, i))
  {
    var m := Without(ns, i);
    forall j | 0 <= j < |m| - 1
      ensures LinkedAt(m, j)
    {
      if j + 1 < i {
        assert LinkedAt(ns, j);
        assert m[j] == ns[j] && m[j + 1] == ns[j + 1];
      } else if j + 1 == i {
        assert m[j] == ns[i - 1] && m[j + 1] == ns[i + 1];
      } else {
        assert LinkedAt(ns, j + 1);
        assert m[j] == ns[j + 1] && m[j + 1] == ns[j + 2];
      }
    }
    if m != [] {
      if i == 0 {
        assert m[0] == ns[1];
      } else {
        assert m[0] == ns[0];
      }
      if i < |ns| - 1 {
        assert m[|m| - 1] == ns[|ns| - 1];
      } else {
        assert m[|m| - 1] == ns[i - 1];
      }
    }
  }

  /** Position of the first occurrence of `x` in `s`. */
  function FirstIndex<T(==)>(s: seq<T>, x: T): (i: nat)
    requires x in s
    ensures i < |s| && s[i] == x && x !in s[..i]
  {
    if s[0] == x then 0 else 1 + FirstIndex(s[1..], x)
  }

  /** `s` with the first occurrence of `x` taken out. */
  function RemoveFirst<T(==)>(s: seq<T>, x: T): (r: seq<T>)
    requires x in s
  {
    Without(s, FirstIndex(s, x))
  }

  /** In a sequence without duplicates, the first occurrence is the only one. */
  lemma FirstIndexUnique<T>(s: seq<T>, i: nat)
    requires Distinct(s) && i < |s|
    ensures FirstIndex(s, s[i]) == i
  {
    var j := FirstIndex(s, s[i]);
    assert j < i ==> Differ(s, j, i);
  }

  /** An element other than the one taken out is still there. */
  lemma InWithout<T>(s: seq<T>, i: nat, x: T)
    requires i < |s| && x in s && x != s[i]
    ensures x in Without(s, i)
  {
    var k :| 0 <= k < |s| && s[k] == x;
    if k < i {
      assert Without(s, i)[k] == x;
    } else {
      assert Without(s, i)[k - 1] == x;
    }
  }

  /** An element other than the last is in the prefix without it. */
  lemma InButLast<T>(s: seq<T>, x: T)
    requires x in s && x != s[|s| - 1]
    ensures x in s[..|s| - 1]
  {
    var k :| 0 <= k < |s| && s[k] == x;
    assert s[..|s| - 1][k] == x;
  }

  /** The manager seen from outside: the session ids in the list, most
      recently used first, and the set of ids that have an entry. */
  datatype Registry<K> = Registry(order: seq<K>, active: set<K>)

  /** What `addJob` is there to keep: each active session is listed exactly
      once, nothing else is listed, and at most `MaxConcurrentChats`
      sessions are active. */
  ghost predicate Coherent<K(!new)>(r: Registry<K>)
  {
    && Distinct(r.order)
    && (forall id :: id in r.order <==> id in r.active)
    && |r.active| <= MaxConcurrentChats
  }

  /** The eviction step of `addJob`: the least recently used id leaves the
      list and, if it has one, its entry. */
  function Evicted<K(==, !new)>(r: Registry<K>): (r': Registry<K>)
  {
    if r.order == [] then r
    else Registry(r.order[..|r.order| - 1], r.active - {r.order[|r.order| - 1]})
  }

  /** Whether `addJob(id)` evicts: the map is full and the id is new. */
  predicate Evicts<K(==, !new)>(r: Registry<K>, id: K)
  {
    |r.active| >= MaxConcurrentChats && id !in r.active
  }

  /** `addJob` as written: evict when the map is full and the id is new, then
      list the id in front and give it an entry. */
  function AfterAddJob<K(==, !new)>(r: Registry<K>, id: K): (r': Registry<K>)
  {
    var kept := if Evicts(r, id) then Evicted(r) else r;
    Registry([id] + kept.order, kept.active + {id})
  }

  /** `getJobState`: an active id moves to the front of the list. */
  function AfterGetJobState<K(==, !new)>(r: Registry<K>, id: K): (r': Registry<K>)
  {
    if id in r.active && id in r.order then Registry([id] + RemoveFirst(r.order, id), r.active) else r
  }

  /** `removeJob`: an active id loses its entry and its place in the list. */
  function AfterRemoveJob<K(==, !new)>(r: Registry<K>, id: K): (r': Registry<K>)
  {
    if id in r.active && id in r.order then Registry(RemoveFirst(r.order, id), r.active - {id}) else r
  }

  /** `addJob` with the session's previous entry dropped first. */
  function AfterAddJobReplacing<K(==, !new)>(r: Registry<K>, id: K): (r': Registry<K>)
  {
    AfterAddJob(AfterRemoveJob(r, id), id)
  }

  /** Taking the last id out of a coherent registry keeps it coherent. */
  lemma EvictedCoherent<K(!new)>(r: Registry<K>)
    requires Coherent(r) && r.order != []
    ensures Coherent(Evicted(r))
    ensures |Evicted(r).active| == |r.active| - 1
  {
    var n := |r.order|;
    var kept := r.order[..n - 1];
    forall a, b | 0 <= a < b < |kept|
      ensures Differ(kept, a, b)
    {
      assert Differ(r.order, a, b);
    }
    forall id
      ensures id in kept <==> id in r.active - {r.order[n - 1]}
    {
      if id in kept {
        var k :| 0 <= k < n - 1 && kept[k] == id;
        assert r.order[k] == id && Differ(r.order, k, n - 1);
      } else if id in r.order && id != r.order[n - 1] {
        InButLast(r.order, id);
      }
    }
  }

  /** For a session that has no entry, `addJob` keeps the registry coherent:
      at capacity it evicts exactly the least recently used session, so the
      number of active sessions never exceeds `MaxConcurrentChats`. */
  lemma {:induction false} AddJobCoherent<K(!new)>(r: Registry<K>, id: K)
    requires Coherent(r) && id !in r.active
    ensures Coherent(AfterAddJob(r, id))
    ensures AfterAddJob(r, id).order[0] == id && id in AfterAddJob(r, id).active
    ensures |r.active| < MaxConcurrentChats ==> AfterAddJob(r, id).active == r.active + {id}
    ensures |r.active| == MaxConcurrentChats ==>
      && r.order != []
      && AfterAddJob(r, id).active == r.active - {r.order[|r.order| - 1]} + {id}
  {
    var kept := r;
    if |r.active| >= MaxConcurrentChats {
      var x :| x in r.active;
      assert x in r.order;
      EvictedCoherent(r);
      kept := Evicted(r);
    }
    assert id !in kept.order;
    DistinctCons(id, kept.order);
  }

  /** Moving an active id to the front keeps a registry coherent. */
  lemma GetJobStateCoherent<K(!new)>(r: Registry<K>, id: K)
    requires Coherent(r)
    ensures Coherent(AfterGetJobState(r, id))
  {
    if id in r.active {
      var i := FirstIndex(r.order, id);
      var m := RemoveFirst(r.order, id);
      WithoutMembers(r.order, i);
      DistinctCons(id, m);
      forall x | x in r.active
        ensures x in [id] + m
      {
        if x != id {
          InWithout(r.order, i, x);
        }
      }
    }
  }

  /** Removing an id keeps a registry coherent, and the id is then inactive. */
  lemma RemoveJobCoherent<K(!new)>(r: Registry<K>, id: K)
    requires Coherent(r)
    ensures Coherent(AfterRemoveJob(r, id)) && id !in AfterRemoveJob(r, id).active
  {
    if id in r.active {
      var i := FirstIndex(r.order, id);
      WithoutMembers(r.order, i);
      forall x | x in r.active && x != id
        ensures x in RemoveFirst(r.order, id)
      {
        InWithout(r.order, i, x);
      }
    }
  }

  /** With the previous entry dropped first, `addJob` keeps a coherent
      registry coherent for every id, new or not. */
  lemma AddJobReplacingCoherent<K(!new)>(r: Registry<K>, id: K)
    requires Coherent(r)
    ensures Coherent(AfterAddJobReplacing(r, id))
    ensures AfterAddJobReplacing(r, id).order[0] == id
  {
    RemoveJobCoherent(r, id);
    AddJobCoherent(AfterRemoveJob(r, id), id);
  }

  /** Adding session 1 twice lists it twice but gives it one entry. */
  lemma DuplicateAddListsTwice()
    ensures AfterAddJob(AfterAddJob(AfterAddJob(Registry([], {}), 1), 1), 2)
         == Registry([2, 1, 1], {1, 2})
  {
    var r1 := AfterAddJob(Registry([], {}), 1);
    assert r1 == Registry([1], {1});
    var r2 := AfterAddJob(r1, 1);
    assert r2 == Registry([1, 1], {1});
  }

  /** Three more sessions fill the map to `MaxConcurrentChats` entries, with
      six nodes in the list. */
  lemma DuplicateAddFills()
    ensures AfterAddJob(AfterAddJob(AfterAddJob(Registry([2, 1, 1], {1, 2}), 3), 4), 5)
         == Registry([5, 4, 3, 2, 1, 1], {1, 2, 3, 4, 5})
  {
    assert |{1, 2}| == 2;
    var r3 := AfterAddJob(Registry([2, 1, 1], {1, 2}), 3);
    assert r3 == Registry([3, 2, 1, 1], {1, 2, 3});
    assert |{1, 2, 3}| == 3;
    var r4 := AfterAddJob(r3, 4);
    assert r4 == Registry([4, 3, 2, 1, 1], {1, 2, 3, 4});
    assert |{1, 2, 3, 4}| == 4;
  }

  /** The stale second node of 1 is evicted first, taking out the live
      entry of 1. */
  lemma DuplicateAddEvictsLive()
    ensures AfterAddJob(Registry([5, 4, 3, 2, 1, 1], {1, 2, 3, 4, 5}), 6)
         == Registry([6, 5, 4, 3, 2, 1], {2, 3, 4, 5, 6})
  {
    assert |{1, 2, 3, 4, 5}| == 5;
  }

  /** The next eviction takes the stale node of 1, whose session has no
      entry left, so nothing leaves the map. */
  lemma DuplicateAddOverflows()
    ensures AfterAddJob(Registry([6, 5, 4, 3, 2, 1], {2, 3, 4, 5, 6}), 7)
         == Registry([7, 6, 5, 4, 3, 2], {2, 3, 4, 5, 6, 7})
  {
    assert |{2, 3, 4, 5, 6}| == 5;
  }

  /** `addJob` as written, given an id that already has an entry, leaves a
      second node for it in the list; evicting that stale node later takes
      the live entry out, and the next eviction then finds nothing to take
      out of the map, which grows to six sessions. */
  lemma DuplicateAddExceedsCapacity()
    ensures var r := AfterAddJob(AfterAddJob(AfterAddJob(AfterAddJob(AfterAddJob(AfterAddJob(
                       AfterAddJob(AfterAddJob(Registry([], {}), 1), 1), 2), 3), 4), 5), 6), 7);
      |r.active| == MaxConcurrentChats + 1 && !Coherent(r)
  {
    DuplicateAddListsTwice();
    DuplicateAddFills();
    DuplicateAddEvictsLive();
    DuplicateAddOverflows();
    assert |{2, 3, 4, 5, 6, 7}| == 6;
  }

  /** `addJob` as written twice for one id, then `removeJob` for it, as
      when the first of two jobs of a session ends: the id has no entry
      left, yet one of its nodes stays in the list. */
  lemma DuplicateAddThenRemoveLeavesStale<K(!new)>(r: Registry<K>, id: K)
    requires Coherent(r) && id !in r.active
    ensures var r' := AfterRemoveJob(AfterAddJob(AfterAddJob(r, id), id), id);
      id !in r'.active && id in r'.order && !Coherent(r')
  {
    var r1 := AfterAddJob(r, id);
    var r2 := AfterAddJob(r1, id);
    assert r2.order == [id] + r1.order && r2.active == r1.active;
    assert FirstIndex(r2.order, id) == 0;
    assert RemoveFirst(r2.order, id) == r1.order;
  }

  class DoublyLinkedList {
    var head: Node?
    var tail: Node?
    var size: int

    /** The nodes from head to tail. */
    ghost var Nodes: seq<Node>

    /** The values the list holds, from head to tail. */
    ghost function Contents(): seq<SessionId>
      reads this
    {
      Values(Nodes)
    }

    ghost predicate Valid()
      reads this, Nodes
    {
      && size == |Nodes|
      && Distinct(Nodes)
      && (if Nodes == [] then head == null && tail == null
          else head == Nodes[0] && tail == Nodes[|Nodes| - 1])
      && LinksMatch(Nodes)
    }

    constructor ()
      ensures Valid() && Nodes == []
    {
      head, tail, size := null, null, 0;
      Nodes := [];
    }

    /** Links a detached node in front of the non-empty chain `m` whose
        first node is `h`. */
    static method LinkFront(ghost m: seq<Node>, n: Node, h: Node)
      requires m != [] && h == m[0] && n !in m && n.prev == null && n.next == null
      requires Distinct(m) && LinksMatch(m)
      modifies n, h
      ensures Distinct([n] + m) && LinksMatch([n] + m)
    {
      n.next := h;
      h.prev := n;
      forall j | 0 <= j < |m| - 1
        ensures LinkedAt(m, j)
      {
        assert old(LinkedAt(m, j));
      }
      LinksAfterAdd(m, n);
      DistinctCons(n, m);
    }

    /** Links a detached node in at the head: the second half of
        `moveToFront`, and all of `addToFront` once the node exists. */
    method PushFront(n: Node)
      requires Valid() && n !in Nodes && n.prev == null && n.next == null
      modifies this, head, n
      ensures Valid()
      ensures Nodes == [n] + old(Nodes)
      ensures head == n && size == old(size) + 1
    {
      ghost var ns := Nodes;
      if head == null {
        head := n;
        tail := n;
      } else {
        LinkFront(ns, n, head);
        head := n;
      }
      size := size + 1;
      Nodes := [n] + ns;
    }

    /** `addToFront`: the new node becomes the head; the others keep their order behind it. */
    method AddToFront(value: SessionId) returns (n: Node)
      requires Valid()
      modifies this, head
      ensures Valid() && fresh(n)
      ensures Nodes == [n] + old(Nodes)
      ensures head == n && n.value == value && size == old(size) + 1
    {
      n := new Node(value);
      PushFront(n);
    }

    /** Unlinks `node` from its neighbours and clears its own links, as
        both `moveToFront` and `remove` do: the other nodes then form
        `Without(ns, i)`. */
    static method Detach(ghost ns: seq<Node>, ghost i: nat, node: Node)
      requires i < |ns| && ns[i] == node && Distinct(ns) && LinksMatch(ns)
      modifies node, node.prev, node.next
      ensures LinksMatch(Without(ns, i))
      ensures node.prev == null && node.next == null
    {
      WithoutMembers(ns, i);
      var p, q := node.prev, node.next;
      assert 0 < i ==> LinkedAt(ns, i - 1);
      assert i < |ns| - 1 ==> LinkedAt(ns, i);
      assert p == if i == 0 then null else ns[i - 1];
      assert q == if i == |ns| - 1 then null else ns[i + 1];
      if p != null {
        p.next := q;
      }
      if q != null {
        q.prev := p;
      }
      forall j | 0 <= j < |ns| - 1 && j + 1 != i && j != i
        ensures LinkedAt(ns, j)
      {
        assert old(LinkedAt(ns, j));
      }
      LinksAfterRemove(ns, i);
      node.prev := null;
      node.next := null;
    }

    /** `moveToFront`: the node becomes the head; the size, and the order of the
        other nodes, are kept; nothing changes when it already is the head. */
    method MoveToFront(node: Node)
      requires Valid() && node in Nodes
      modifies this, head, node, node.prev, node.next
      ensures Valid() && size == old(size)
      ensures var i := IndexOfNode(old(Nodes), node);
        && Nodes == [node] + Without(old(Nodes), i)
      ensures head == node
    {
      ghost var i := IndexOfNode(Nodes, node);
      ghost var ns := Nodes;
      if node == head {
        FrontIndex(ns);
        return;
      }
      WithoutMembers(ns, i);
      ghost var m := Without(ns, i);
      assert LinkedAt(ns, i - 1);
      assert node.prev == ns[i - 1] && head == ns[0] == m[0];
      if node == tail {
        tail := node.prev;
      }
      Detach(ns, i, node);
      LinkFront(m, node, head);
      head := node;
      Nodes := [node] + m;
    }

    /** The neighbours of a listed node are listed too, so the nodes a
        method relinks lie within the list. */
    lemma NeighboursListed(node: Node)
      requires Valid() && node in Nodes
      ensures node.prev != null ==> node.prev in Nodes
      ensures node.next != null ==> node.next in Nodes
    {
      var i := IndexOfNode(Nodes, node);
      if 0 < i {
        assert LinkedAt(Nodes, i - 1);
      }
      if i < |Nodes| - 1 {
        assert LinkedAt(Nodes, i);
      }
    }

    /** `removeLast`: `None` on an empty list; otherwise the tail's value, with
        exactly that element removed. */
    method RemoveLast() returns (r: Option<SessionId>)
      requires Valid()
      modifies this, tail, if tail == null then null else tail.prev
      ensures Valid()
      ensures old(Nodes) == [] ==> r == None && Nodes == []
      ensures old(Nodes) != [] ==>
        && r == Some(old(Nodes)[|old(Nodes)| - 1].value)
        && Nodes == old(Nodes)[..|old(Nodes)| - 1]
        && size == old(size) - 1
    {
      var last := tail;
      if last == null {
        return None;
      }
      ghost var ns := Nodes;
      ghost var i := |ns| - 1;
      WithoutMembers(ns, i);
      if head == last {
        head := null;
        tail := null;
      } else {
        assert LinkedAt(ns, i - 1);
        var p := last.prev;
        assert p == ns[i - 1];
        tail := p;
        p.next := null;
        forall j | 0 <= j < |ns| - 1 && j + 1 != i && j != i
          ensures LinkedAt(ns, j)
        {
          assert old(LinkedAt(ns, j));
        }
        LinksAfterRemove(ns, i);
        last.prev := null;
      }
      size := size - 1;
      assert Without(ns, i) == ns[..i];
      Nodes := ns[..i];
      r := Some(last.value);
    }

    /** `remove(node)`: unlinks exactly that node, moving head or tail when it
        was at an end. */
    method Remove(node: Node)
      requires Valid() && node in Nodes
      modifies this, node, node.prev, node.next
      ensures Valid() && size == old(size) - 1
      ensures var i := IndexOfNode(old(Nodes), node);
        && Nodes == Without(old(Nodes), i)
      ensures node.prev == null && node.next == null
    {
      ghost var i := IndexOfNode(Nodes, node);
      ghost var ns := Nodes;
      WithoutMembers(ns, i);
      assert 0 < i ==> LinkedAt(ns, i - 1);
      assert i < |ns| - 1 ==> LinkedAt(ns, i);
      if node == head {
        head := node.next;
      }
      if node == tail {
        tail := node.prev;
      }
      Detach(ns, i, node);
      size := size - 1;
      Nodes := Without(ns, i);
    }

    /** `clear`: forgets all nodes (without unlinking them). */
    method Clear()
      modifies this
      ensures Valid() && Nodes == []
    {
      head := null;
      tail := null;
      size := 0;
      Nodes := [];
    }

    /** `size()`. */
    method Size() returns (n: int)
      requires Valid()
      ensures n == |Contents()| && n == |Nodes|
    {
      n := size;
    }
  }

  /** A cancellable coroutine job; cancelling it again changes nothing. */
  class Job {
    var cancelled: bool

    constructor ()
      ensures !cancelled
    {
      cancelled := false;
    }

    method Cancel()
      modifies this
      ensures cancelled
    {
      cancelled := true;
    }
  }

  /** `JobState`: the segmenter's answer builder, thinking stack and flag for
      one session, with the session's node in the LRU list. */
  class JobState {
    const job: Job
    var responseBuilder: string
    var thinkingStack: seq<string>
    var isInThinkingBlock: bool
    var node: Node?

    constructor (job: Job, node: Node?)
      ensures this.job == job && this.node == node
      ensures responseBuilder == "" && thinkingStack == [] && !isInThinkingBlock
    {
      this.job := job;
      this.node := node;
      responseBuilder := "";
      thinkingStack := [];
      isInThinkingBlock := false;
    }
  }

  /** `ChatJobManager`: a map from session id to job state, and an LRU list of
      session ids that decides which job to cancel when the map is full. */
  class ChatJobManager {
    var jobMap: map<SessionId, JobState>
    const lruList: DoublyLinkedList

    /** The list's values and the map's keys. */
    ghost function Abstract(): Registry<SessionId>
      reads this, lruList
    {
      Registry(lruList.Contents(), jobMap.Keys)
    }

    /** Every entry's node is in the list and holds the entry's id. */
    ghost predicate Listed()
      reads this, lruList, jobMap.Values`node
    {
      forall id | id in jobMap ::
        jobMap[id].node != null && jobMap[id].node in lruList.Nodes && jobMap[id].node.value == id
    }

    /** Every entry but the one for `id` has its node in the list. */
    ghost predicate ListedBut(id: SessionId)
      reads this, lruList, jobMap.Values`node
    {
      forall k | k in jobMap && k != id ::
        jobMap[k].node != null && jobMap[k].node in lruList.Nodes && jobMap[k].node.value == k
    }

    /** The list is well formed and lists every entry. This holds after every
        operation, including `addJob` on an id that has an entry. */
    ghost predicate Valid()
      reads this, lruList, lruList.Nodes, jobMap.Values`node
    {
      lruList.Valid() && Listed()
    }

    /** `Valid`, and the list and the map describe a coherent registry. */
    ghost predicate Consistent()
      reads this, lruList, lruList.Nodes, jobMap.Values`node
    {
      Valid() && Coherent(Abstract())
    }

    /** The jobs of all entries. */
    ghost function Jobs(): set<Job>
      reads this
    {
      set s | s in jobMap.Values :: s.job
    }

    /** The job of the list's last id, if that id has an entry: the job the
        eviction step of `addJob` cancels. */
    ghost function OldestJobs(): set<Job>
      reads this, lruList
    {
      var ids := lruList.Contents();
      if ids == [] then {}
      else if ids[|ids| - 1] in jobMap then {jobMap[ids[|ids| - 1]].job}
      else {}
    }

    /** The jobs `addJob(sessionId)` cancels: the oldest job when it evicts,
        none otherwise. */
    ghost function EvictedJobs(sessionId: SessionId): set<Job>
      reads this, lruList
    {
      if Evicts(Abstract(), sessionId) then OldestJobs() else {}
    }

    /** The nodes left in the list once the entry for `sessionId`, if it
        has one, is unlinked, as far as the tail is concerned: the list
        without its last node when that node is the session's own. */
    ghost function NodesBeforeTail(sessionId: SessionId): seq<Node>
      reads this, lruList, jobMap.Values`node
    {
      var nodes := lruList.Nodes;
      if sessionId in jobMap && nodes != [] && nodes[|nodes| - 1] == jobMap[sessionId].node
      then nodes[..|nodes| - 1] else nodes
    }

    /** The job the corrected `addJob` evicts once the session's own
        entry is gone: when the rest of the map is still full, the job of
        the id then left last in the list. */
    ghost function EvictedOnReplacing(sessionId: SessionId): set<Job>
      reads this, lruList, jobMap.Values`node
    {
      var rest := jobMap - {sessionId};
      if |rest| >= MaxConcurrentChats then LastJob(NodesBeforeTail(sessionId), rest) else {}
    }

    /** For an id without an entry, `addJob` evicts the last node's job
        exactly when the map is full. */
    lemma EvictedIsLastJob(sessionId: SessionId)
      requires Valid() && sessionId !in jobMap
      ensures EvictedJobs(sessionId) == if |jobMap| >= MaxConcurrentChats then LastJob(lruList.Nodes, jobMap) else {}
    {
      assert Abstract().active == jobMap.Keys && |jobMap.Keys| == |jobMap|;
    }

    /** The jobs the corrected `addJob` cancels: the session's own job and
        the one it evicts. */
    ghost function ReplacedJobs(sessionId: SessionId): set<Job>
      reads this, lruList, jobMap.Values`node
    {
      (if sessionId in jobMap then {jobMap[sessionId].job} else {}) + EvictedOnReplacing(sessionId)
    }

    constructor ()
      ensures Consistent() && jobMap == map[] && lruList.Nodes == []
    {
      jobMap := map[];
      lruList := new DoublyLinkedList();
    }

    /** `getActiveSessionIds`: the ids with an entry; in a consistent manager,
        exactly the ids in the list, and at most `MaxConcurrentChats`. */
    method GetActiveSessionIds() returns (ids: set<SessionId>)
      requires Valid()
      ensures forall id :: id in ids <==> id in jobMap
      ensures Consistent() ==> |ids| <= MaxConcurrentChats && forall id :: id in ids <==> id in lruList.Contents()
    {
      ids := jobMap.Keys;
    }

    /** The eviction step of `addJob`: the list's last id leaves the list and
        the map, and its job, if it had an entry, is cancelled. */
    method EvictOldest()
      requires Valid()
      modifies this, lruList, lruList.Nodes, jobMap.Values`node, OldestJobs()
      ensures Valid()
      ensures Abstract() == Evicted(old(Abstract()))
      ensures old(lruList.Nodes) == [] ==> lruList.Nodes == [] && jobMap == old(jobMap)
      ensures old(lruList.Nodes) != [] ==>
        var id := old(lruList.Contents())[|old(lruList.Nodes)| - 1];
        && lruList.Nodes == old(lruList.Nodes)[..|old(lruList.Nodes)| - 1]
        && jobMap == old(jobMap) - {id}
        && (id in old(jobMap) ==> old(jobMap[id]).job.cancelled && old(jobMap[id]).node == null)
      ensures forall j | j in old(OldestJobs()) :: j.cancelled
    {
      ghost var r := Abstract();
      if lruList.tail != null {
        lruList.NeighboursListed(lruList.tail);
      }
      var oldest := PopOldest();
      if oldest.Some? {
        var id := oldest.value;
        if id in jobMap {
          DropEntry(id, jobMap[id]);
        } else {
          assert jobMap == jobMap - {id};
        }
        assert jobMap.Keys == r.active - {id};
        assert Abstract() == Registry(r.order[..|r.order| - 1], r.active - {id});
      }
    }

    /** `lruList.removeLast()` as the manager sees it: every entry but the
        one for the removed id keeps its node in the list. */
    method PopOldest() returns (oldest: Option<SessionId>)
      requires Valid()
      modifies lruList, lruList.tail, if lruList.tail == null then null else lruList.tail.prev
      ensures lruList.Valid()
      ensures old(lruList.Nodes) == [] ==> oldest == None && lruList.Nodes == []
      ensures old(lruList.Nodes) != [] ==>
        && oldest == Some(old(lruList.Contents())[|old(lruList.Nodes)| - 1])
        && lruList.Nodes == old(lruList.Nodes)[..|old(lruList.Nodes)| - 1]
        && lruList.Contents() == old(lruList.Contents())[..|old(lruList.Nodes)| - 1]
        && ListedBut(oldest.value)
    {
      ghost var ns := lruList.Nodes;
      oldest := lruList.RemoveLast();
      if oldest.Some? {
        ValuesPrefix(ns, |ns| - 1);
        forall k | k in jobMap && k != oldest.value
          ensures jobMap[k].node in lruList.Nodes
        {
          InButLast(ns, jobMap[k].node);
        }
      }
    }

    /** `jobMap.remove(id)?.let { cancel; node = null }` for a present id. */
    method DropEntry(id: SessionId, oldState: JobState)
      requires id in jobMap && jobMap[id] == oldState
      requires oldState.node != null && oldState.node.value == id
      requires ListedBut(id)
      modifies this, oldState`node, oldState.job
      ensures Listed() && jobMap == old(jobMap) - {id}
      ensures oldState.job.cancelled && oldState.node == null
    {
      assert forall k | k in jobMap && k != id :: jobMap[k] != oldState;
      jobMap := jobMap - {id};
      oldState.job.Cancel();
      oldState.node := null;
    }

    /** `addJob`: evicts when the map is full and the id is new, then lists
        the id in front and maps it to a fresh state holding that node. For
        a new id a consistent manager stays consistent. */
    method AddJob(sessionId: SessionId, job: Job) returns (state: JobState)
      requires Valid()
      modifies this, lruList, lruList.Nodes, jobMap.Values`node, EvictedJobs(sessionId)
      ensures Valid() && fresh(state)
      ensures Abstract() == AfterAddJob(old(Abstract()), sessionId)
      ensures sessionId in jobMap && jobMap[sessionId] == state
      ensures state.job == job && state.node == lruList.head && state.node != null
      ensures state.responseBuilder == "" && state.thinkingStack == [] && !state.isInThinkingBlock
      ensures !Evicts(old(Abstract()), sessionId) ==> jobMap == old(jobMap)[sessionId := state]
      ensures Evicts(old(Abstract()), sessionId) ==>
        jobMap == (old(jobMap) - {old(lruList.Contents())[|old(lruList.Nodes)| - 1]})[sessionId := state]
      ensures Coherent(old(Abstract())) && sessionId !in old(jobMap) ==> Coherent(Abstract())
      ensures forall j | j in old(EvictedJobs(sessionId)) :: j.cancelled
    {
      if |jobMap| >= MaxConcurrentChats && sessionId !in jobMap {
        state := EvictAndPush(sessionId, job);
      } else {
        ghost var r := Abstract();
        state := PushEntry(sessionId, job, {});
        assert Abstract() == AfterAddJob(r, sessionId);
        if Coherent(r) && sessionId !in old(jobMap) {
          AddJobCoherent(r, sessionId);
        }
      }
    }

    /** `addJob` on a full map and a new id: evict the oldest, then push. */
    method EvictAndPush(sessionId: SessionId, job: Job) returns (state: JobState)
      requires Valid() && Evicts(Abstract(), sessionId)
      modifies this, lruList, lruList.Nodes, jobMap.Values`node, OldestJobs()
      ensures Valid() && fresh(state)
      ensures Abstract() == AfterAddJob(old(Abstract()), sessionId)
      ensures state.job == job && state.node == lruList.head && state.node != null
      ensures state.responseBuilder == "" && state.thinkingStack == [] && !state.isInThinkingBlock
      ensures jobMap == (old(jobMap) - {old(lruList.Contents())[|old(lruList.Nodes)| - 1]})[sessionId := state]
      ensures Coherent(old(Abstract())) ==> Coherent(Abstract())
      ensures forall j | j in old(OldestJobs()) :: j.cancelled
    {
      ghost var r := Abstract();
      ghost var evicted := OldestJobs();
      EvictOldest();
      assert forall j | j in evicted :: j.cancelled;
      assert forall n | n in lruList.Nodes :: n in old(lruList.Nodes);
      state := PushEntry(sessionId, job, evicted);
      assert Abstract() == AfterAddJob(r, sessionId);
      if Coherent(r) {
        AddJobCoherent(r, sessionId);
      }
    }

    /** The tail of `addJob`: list the id in front and map it to a fresh
        state holding that node; no job, `jobs` among them, changes. */
    method PushEntry(sessionId: SessionId, job: Job, ghost jobs: set<Job>) returns (state: JobState)
      requires Valid()
      modifies this, lruList, lruList.Nodes
      ensures Valid() && fresh(state)
      ensures Abstract() == Registry([sessionId] + old(Abstract()).order, old(Abstract()).active + {sessionId})
      ensures jobMap == old(jobMap)[sessionId := state]
      ensures state.job == job && state.node == lruList.head && state.node != null
      ensures state.responseBuilder == "" && state.thinkingStack == [] && !state.isInThinkingBlock
      ensures forall j | j in jobs :: j.cancelled == old(j.cancelled)
    {
      ghost var ns := lruList.Nodes;
      var entries := jobMap;
      var node := lruList.AddToFront(sessionId);
      ValuesCons(node, ns);
      state := new JobState(job, node);
      jobMap := entries[sessionId := state];
    }

    /** `getJobState`: an id with an entry gets its state back and its node
        moves to the head of the list, so it is no longer the next to be
        evicted; for any other id the result is `None` and nothing changes. */
    method GetJobState(sessionId: SessionId) returns (r: Option<JobState>)
      requires Valid()
      modifies lruList, lruList.Nodes
      ensures Valid() && jobMap == old(jobMap)
      ensures sessionId !in jobMap ==> r == None && lruList.Nodes == old(lruList.Nodes)
      ensures sessionId in jobMap ==>
        var node := jobMap[sessionId].node;
        && r == Some(jobMap[sessionId])
        && lruList.head == node
        && lruList.Nodes == [node] + Without(old(lruList.Nodes), IndexOfNode(old(lruList.Nodes), node))
      ensures Coherent(old(Abstract())) ==>
        Abstract() == AfterGetJobState(old(Abstract()), sessionId) && Coherent(Abstract())
    {
      if sessionId !in jobMap {
        return None;
      }
      ghost var a := Abstract();
      var state := jobMap[sessionId];
      var node := state.node;
      ghost var i := IndexOfNode(lruList.Nodes, node);
      lruList.NeighboursListed(node);
      Promote(node);
      if Coherent(a) {
        FirstIndexUnique(a.order, i);
        assert Abstract() == AfterGetJobState(a, sessionId);
        GetJobStateCoherent(a, sessionId);
      }
      r := Some(state);
    }

    /** The list half of `getJobState`: a listed node moves to the head, and
        every entry stays listed. */
    method Promote(node: Node)
      requires Valid() && node in lruList.Nodes
      modifies lruList, lruList.head, node, node.prev, node.next
      ensures Valid() && lruList.head == node
      ensures var i := IndexOfNode(old(lruList.Nodes), node);
        && lruList.Nodes == [node] + Without(old(lruList.Nodes), i)
        && lruList.Contents() == [node.value] + Without(old(lruList.Contents()), i)
    {
      ghost var ns := lruList.Nodes;
      ghost var i := IndexOfNode(ns, node);
      lruList.MoveToFront(node);
      forall k | k in jobMap
        ensures jobMap[k].node in lruList.Nodes
      {
        if jobMap[k].node != node {
          InWithout(ns, i, jobMap[k].node);
        }
      }
      ValuesWithout(ns, i);
      ValuesCons(node, Without(ns, i));
    }

    /** `removeJob`: an id with an entry loses it, its job is cancelled and
        its node is unlinked from the list; for any other id nothing changes. */
    method RemoveJob(sessionId: SessionId)
      requires Valid()
      modifies this, lruList, lruList.Nodes, if sessionId in jobMap then {jobMap[sessionId].job} else {}
      ensures Valid()
      ensures sessionId !in old(jobMap) ==> jobMap == old(jobMap) && lruList.Nodes == old(lruList.Nodes)
      ensures sessionId in old(jobMap) ==>
        var node := old(jobMap[sessionId].node);
        && jobMap == old(jobMap) - {sessionId}
        && old(jobMap[sessionId]).job.cancelled
        && lruList.Nodes == Without(old(lruList.Nodes), IndexOfNode(old(lruList.Nodes), node))
      ensures Coherent(old(Abstract())) ==>
        Abstract() == AfterRemoveJob(old(Abstract()), sessionId) && Coherent(Abstract())
    {
      if sessionId !in jobMap {
        return;
      }
      ghost var a := Abstract();
      var state := jobMap[sessionId];
      var node := state.node;
      ghost var i := IndexOfNode(lruList.Nodes, node);
      lruList.NeighboursListed(node);
      ForgetEntry(sessionId, state);
      UnlinkNode(node);
      if Coherent(a) {
        FirstIndexUnique(a.order, i);
        assert Abstract() == AfterRemoveJob(a, sessionId);
        RemoveJobCoherent(a, sessionId);
      }
    }

    /** The map half of `removeJob`: the entry goes and its job is cancelled. */
    method ForgetEntry(id: SessionId, state: JobState)
      requires id in jobMap && jobMap[id] == state
      modifies this, state.job
      ensures jobMap == old(jobMap) - {id} && state.job.cancelled
    {
      jobMap := jobMap - {id};
      state.job.Cancel();
    }

    /** The list half of `removeJob`: the node of an id that has no entry any
        more is unlinked, and every entry stays listed. */
    method UnlinkNode(node: Node)
      requires lruList.Valid() && Listed() && node in lruList.Nodes && node.value !in jobMap
      modifies lruList, node, node.prev, node.next
      ensures Valid()
      ensures var i := IndexOfNode(old(lruList.Nodes), node);
        && lruList.Nodes == Without(old(lruList.Nodes), i)
        && lruList.Contents() == Without(old(lruList.Contents()), i)
    {
      ghost var ns := lruList.Nodes;
      ghost var i := IndexOfNode(ns, node);
      lruList.Remove(node);
      forall k | k in jobMap
        ensures jobMap[k].node in lruList.Nodes
      {
        InWithout(ns, i, jobMap[k].node);
      }
      ValuesWithout(ns, i);
    }

    /** `cancelAllJobs`: every job is cancelled, then the map and the list
        are emptied, which leaves a consistent manager. */
    method CancelAllJobs()
      requires Valid()
      modifies this, lruList, Jobs()
      ensures Consistent() && jobMap == map[] && lruList.Nodes == []
      ensures forall s | s in old(jobMap.Values) :: s.job.cancelled
    {
      var pending := jobMap.Values;
      while pending != {}
        invariant jobMap == old(jobMap) && pending <= jobMap.Values
        invariant forall s | s in jobMap.Values && s !in pending :: s.job.cancelled
        decreases |pending|
      {
        var s :| s in pending;
        s.job.Cancel();
        pending := pending - {s};
      }
      jobMap := map[];
      lruList.Clear();
    }

    /** The removal step of the corrected `addJob`: `removeJob`, after
        which the job `addJob` evicts is the one `EvictedOnReplacing`
        names. */
    method RemoveForReplacing(sessionId: SessionId)
      requires Valid()
      modifies this, lruList, lruList.Nodes, if sessionId in jobMap then {jobMap[sessionId].job} else {}
      ensures Valid() && sessionId !in jobMap
      ensures sessionId in old(jobMap) ==> old(jobMap[sessionId]).job.cancelled
      ensures jobMap == old(jobMap) - {sessionId}
      ensures sessionId !in old(jobMap) ==> lruList.Nodes == old(lruList.Nodes)
      ensures sessionId in old(jobMap) ==>
        lruList.Nodes == Without(old(lruList.Nodes), IndexOfNode(old(lruList.Nodes), old(jobMap[sessionId].node)))
      ensures EvictedJobs(sessionId) == old(EvictedOnReplacing(sessionId))
      ensures EvictedJobs(sessionId) <= old(ReplacedJobs(sessionId))
      ensures forall j | j in old(ReplacedJobs(sessionId)) :: j.cancelled || j in EvictedJobs(sessionId)
      ensures Coherent(old(Abstract())) ==>
        Abstract() == AfterRemoveJob(old(Abstract()), sessionId) && Coherent(Abstract())
    {
      if sessionId in jobMap {
        RemoveEntryForReplacing(sessionId);
      } else {
        EvictedIsLastJob(sessionId);
      }
    }

    /** `RemoveForReplacing` for an id with an entry. */
    method RemoveEntryForReplacing(sessionId: SessionId)
      requires Valid() && sessionId in jobMap
      modifies this, lruList, lruList.Nodes, jobMap[sessionId].job
      ensures Valid() && sessionId !in jobMap
      ensures old(jobMap[sessionId]).job.cancelled
      ensures jobMap == old(jobMap) - {sessionId}
      ensures lruList.Nodes == Without(old(lruList.Nodes), IndexOfNode(old(lruList.Nodes), old(jobMap[sessionId].node)))
      ensures EvictedJobs(sessionId) == old(EvictedOnReplacing(sessionId))
      ensures Coherent(old(Abstract())) ==>
        Abstract() == AfterRemoveJob(old(Abstract()), sessionId) && Coherent(Abstract())
    {
      var node := jobMap[sessionId].node;
      ghost var nodes := lruList.Nodes;
      ghost var rest := jobMap - {sessionId};
      ghost var i := IndexOfNode(nodes, node);
      assert i < |nodes| - 1 ==> Differ(nodes, i, |nodes| - 1);
      LastJobWithout(nodes, i, rest);
      assert EvictedOnReplacing(sessionId) ==
        if |rest| >= MaxConcurrentChats then LastJob(Without(nodes, i), rest) else {};
      RemoveJob(sessionId);
      EvictedIsLastJob(sessionId);
      assert jobMap == rest && lruList.Nodes == Without(nodes, i);
    }

    /** The adding step of the corrected `addJob`, after the removal that
        took registry `a` to the current one: every job in `done`, cancelled
        already or about to be evicted, is cancelled afterwards. */
    method AddJobAfterRemoval(sessionId: SessionId, job: Job, ghost a: Registry<SessionId>, ghost done: set<Job>)
      returns (state: JobState)
      requires Valid() && sessionId !in jobMap
      requires Coherent(a) ==> Abstract() == AfterRemoveJob(a, sessionId) && Coherent(Abstract())
      requires forall j | j in done :: j.cancelled || j in EvictedJobs(sessionId)
      modifies this, lruList, lruList.Nodes, jobMap.Values`node, EvictedJobs(sessionId)
      ensures Valid() && fresh(state)
      ensures Coherent(a) ==> Abstract() == AfterAddJobReplacing(a, sessionId) && Coherent(Abstract())
      ensures sessionId in jobMap && jobMap[sessionId] == state
      ensures state.job == job && state.node == lruList.head && state.node != null
      ensures state.responseBuilder == "" && state.thinkingStack == [] && !state.isInThinkingBlock
      ensures forall j | j in done :: j.cancelled
    {
      state := AddJob(sessionId, job);
      if Coherent(a) {
        AddJobReplacingCoherent(a, sessionId);
      }
    }

    /** `addJob` with the session's entry, if it has one, removed first as
        `removeJob` does: the state's node is the only one for the id, and a
        consistent manager stays consistent for every id, new or not. The
        session's previous job and the job evicted after its removal are
        cancelled, and no other job is touched. */
    method AddJobReplacing(sessionId: SessionId, job: Job) returns (state: JobState)
      requires Valid()
      modifies this, lruList, lruList.Nodes, jobMap.Values`node, ReplacedJobs(sessionId)
      ensures Valid() && fresh(state)
      ensures forall j | j in old(ReplacedJobs(sessionId)) :: j.cancelled
      ensures sessionId in old(jobMap) ==> old(jobMap[sessionId]).job.cancelled
      ensures sessionId in jobMap && jobMap[sessionId] == state
      ensures state.job == job && state.node == lruList.head && state.node != null
      ensures state.responseBuilder == "" && state.thinkingStack == [] && !state.isInThinkingBlock
      ensures Coherent(old(Abstract())) ==>
        Abstract() == AfterAddJobReplacing(old(Abstract()), sessionId) && Coherent(Abstract())
    {
      ghost var a := Abstract();
      ghost var replaced := ReplacedJobs(sessionId);
      RemoveForReplacing(sessionId);
      assert forall n | n in lruList.Nodes :: n in old(lruList.Nodes);
      state := AddJobAfterRemoval(sessionId, job, a, replaced);
    }
  }
}
