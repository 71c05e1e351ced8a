/** The linked list of hosts (parsing/ip.c: add_node_to_list, add_ip_node_to_list). */
module HostList {
  import opened CTypes
  import opened Packet
  import opened Targets

  /** struct s_ip: a host and the state of each of its (scan, port) cells. */
  class Ip {
    const addr: Address
    const state: array2<int>
    var next: Ip?

    constructor (addr: Address)
      ensures this.addr == addr && next == null && fresh(state) && Sized()
      ensures forall s, p :: 0 <= s < TOTAL_TYPE && 0 <= p < RANGE_PORT ==> state[s, p] == 0
    {
      this.addr := addr;
      this.state := new int[TOTAL_TYPE, RANGE_PORT]((_, _) => 0);
      this.next := null;
    }

    predicate Sized() {
      state.Length0 == TOTAL_TYPE && state.Length1 == RANGE_PORT
    }
  }

  // ----- removing later duplicates -----

  function With(d: seq<Address>, x: Address): seq<Address> {
    if x in d then d else d + [x]
  }

  function Dedup(s: seq<Address>): seq<Address> {
    if s == [] then [] else With(Dedup(s[..|s| - 1]), s[|s| - 1])
  }

  ghost predicate FirstAt(s: seq<Address>, x: Address, k: nat) {
    k < |s| && s[k] == x && x !in s[..k]
  }

  /** Each address is kept once, at its first occurrence, in the original order. */
  lemma {:induction false} DedupIsSound(s: seq<Address>)
    ensures HostsApart(Dedup(s))
    ensures forall x :: x in Dedup(s) <==> x in s
    ensures forall i, j, m, n ::
              0 <= i < j < |Dedup(s)| && FirstAt(s, Dedup(s)[i], m) && FirstAt(s, Dedup(s)[j], n) ==> m < n
  {
    if s != [] {
      var t, last := s[..|s| - 1], s[|s| - 1];
      DedupIsSound(t);
      assert s == t + [last];
      forall i, j, m, n | 0 <= i < j < |Dedup(s)| && FirstAt(s, Dedup(s)[i], m) && FirstAt(s, Dedup(s)[j], n)
        ensures m < n
      {
        FirstInPrefix(t, last, Dedup(s)[i], m);
        FirstInPrefix(t, last, Dedup(s)[j], n);
      }
    }
  }

  lemma FirstInPrefix(t: seq<Address>, last: Address, x: Address, k: nat)
    requires FirstAt(t + [last], x, k)
    ensures x in t ==> FirstAt(t, x, k)
    ensures x !in t ==> k == |t|
  {
    var s := t + [last];
    if k < |t| {
      assert s[..k] == t[..k];
    }
  }

  lemma DedupStep(ips: seq<Address>, i: nat)
    requires i < |ips|
    ensures Dedup(ips[..i + 1]) == With(Dedup(ips[..i]), ips[i])
  {
    assert ips[..i + 1][..i] == ips[..i];
  }

  // ----- the list -----

  method FtMemcmp(s1: Address, s2: Address) returns (diff: int)
    ensures diff == 0 <==> s1 == s2
  {
    var i := 0;
    while i < 4
      invariant 0 <= i <= 4 && s1[..i] == s2[..i]
    {
      if s1[i] != s2[i] {
        return s1[i] as int - s2[i] as int;
      }
      i := i + 1;
    }
    return 0;
  }

  /** Node i of a chain, null behind its end. */
  ghost function NodeAt(nodes: seq<Ip>, i: nat): Ip? {
    if i < |nodes| then nodes[i] else null
  }

  /** No two nodes have the same address or share their states. */
  ghost predicate Apart(nodes: seq<Ip>) {
    && (forall i :: 0 <= i < |nodes| ==> nodes[i].Sized())
    && (forall i, j :: 0 <= i < j < |nodes| ==> nodes[i].addr != nodes[j].addr)
    && (forall i, j :: 0 <= i < j < |nodes| ==> nodes[i].state != nodes[j].state)
  }

  lemma OneNodeMore(nodes: seq<Ip>, n: Ip)
    requires Apart(nodes) && n.Sized() && n.addr !in AddressesOf(nodes)
    requires forall i :: 0 <= i < |nodes| ==> nodes[i].state != n.state
    ensures Apart(nodes + [n]) && AddressesOf(nodes + [n]) == AddressesOf(nodes) + [n.addr]
  {
    assert forall i :: 0 <= i < |nodes| ==> AddressesOf(nodes)[i] == nodes[i].addr;
  }

  /** The hosts to scan: list->res, with the nodes it leads to. */
  class Hosts {
    var res: Ip?
    ghost var nodes: seq<Ip>

    constructor ()
      ensures Valid() && nodes == []
    {
      res, nodes := null, [];
    }

    /** The chain is acyclic, since it is exactly the finite sequence of nodes; no two nodes
        have the same address or share their states. */
    ghost predicate Valid()
      reads this, nodes
    {
      && res == NodeAt(nodes, 0)
      && (forall i :: 0 <= i < |nodes| ==> nodes[i].next == NodeAt(nodes, i + 1))
      && Apart(nodes)
    }

    ghost predicate Holds(addr: Address)
      reads this
    {
      addr in AddressesOf(nodes)
    }

    /** Looks for an address; if it is not there, `last` is where the walk stopped. */
    method FindOrLast(addr: Address) returns (found: bool, last: Ip?)
      requires Valid()
      ensures found <==> Holds(addr)
      ensures !found ==> last == if nodes == [] then null else nodes[|nodes| - 1]
    {
      last := res;
      ghost var i := 0;
      while last != null
        invariant i <= |nodes| && last == NodeAt(nodes, i)
        invariant i == |nodes| ==> nodes == []
        invariant forall k :: 0 <= k < i ==> nodes[k].addr != addr
        decreases |nodes| - i
      {
        assert last == nodes[i];
        var diff := FtMemcmp(last.addr, addr);
        if diff == 0 {
          return true, last;
        }
        if last.next == null {
          return false, last;
        }
        last := last.next;
        i := i + 1;
      }
      return false, last;
    }

    /** Links a node behind the last one. */
    method Append(newNode: Ip, last: Ip?)
      requires Valid() && last == if nodes == [] then null else nodes[|nodes| - 1]
      requires newNode !in nodes && newNode.next == null && Apart(nodes + [newNode])
      modifies `res, `nodes, nodes`next
      ensures Valid() && nodes == old(nodes) + [newNode]
    {
      if last == null {
        res := newNode;
      } else {
        last.next := newNode;
      }
      nodes := nodes + [newNode];
    }

    /** Links a new node with zeroed states behind the last one. */
    method AppendNew(addr: Address, last: Ip?)
      requires Valid() && last == if nodes == [] then null else nodes[|nodes| - 1]
      requires addr !in AddressesOf(nodes)
      modifies `res, `nodes, nodes`next
      ensures Valid() && nodes != [] && nodes == old(nodes) + [nodes[|nodes| - 1]] && nodes[|nodes| - 1].addr == addr
      ensures AddressesOf(nodes) == old(AddressesOf(nodes)) + [addr]
      ensures fresh(nodes[|nodes| - 1]) && fresh(nodes[|nodes| - 1].state) && Zeroed(nodes[|nodes| - 1])
    {
      var newNode := new Ip(addr);
      OneNodeMore(nodes, newNode);
      assert Zeroed(newNode);
      Append(newNode, last);
    }

    /** Appends a host with zeroed states, unless its address is already there. */
    method AddNode(addr: Address)
      requires Valid()
      modifies `res, `nodes, nodes`next
      ensures Valid() && AddressesOf(nodes) == With(old(AddressesOf(nodes)), addr)
      ensures old(Holds(addr)) ==> nodes == old(nodes)
      ensures !old(Holds(addr)) ==>
                && nodes != [] && nodes == old(nodes) + [nodes[|nodes| - 1]] && nodes[|nodes| - 1].addr == addr
                && fresh(nodes[|nodes| - 1]) && fresh(nodes[|nodes| - 1].state) && Zeroed(nodes[|nodes| - 1])
    {
      var found, last := FindOrLast(addr);
      if !found {
        AppendNew(addr, last);
      }
    }

    /** The hosts of the command line or file, by their texts: at most 42 entries, duplicates dropped. */
    method AddIpNodes(texts: seq<string>, ghost ips: seq<Address>) returns (outcome: Outcome)
      requires Valid() && nodes == [] && texts == Dotted(ips)
      modifies `res, `nodes
      ensures outcome == Exit <==> |texts| > 42
      ensures outcome == Continue ==> Valid() && AddressesOf(nodes) == Dedup(ips)
      ensures outcome == Continue ==>
                forall k :: 0 <= k < |nodes| ==> fresh(nodes[k]) && fresh(nodes[k].state) && Zeroed(nodes[k])
    {
      if |texts| > MAX_IPS {
        return Exit;
      }
      var i := 0;
      ghost var sofar: seq<Address> := [];
      while i < |texts|
        invariant 0 <= i <= |texts| && Valid()
        invariant AddressesOf(nodes) == sofar == Dedup(ips[..i])
        invariant forall k :: 0 <= k < |nodes| ==> fresh(nodes[k]) && fresh(nodes[k].state) && Zeroed(nodes[k])
      {
        var addr := CreateIpNode(texts, ips, i);
        DedupStep(ips, i);
        sofar := With(sofar, addr);
        AddNode(addr);
        i := i + 1;
      }
      assert ips[..i] == ips;
      return Continue;
    }
  }

  /** getaddrinfo on the text of an address. */
  method CreateIpNode(texts: seq<string>, ghost ips: seq<Address>, i: nat) returns (addr: Address)
    requires texts == Dotted(ips) && i < |texts|
    ensures addr == ips[i]
  {
    TextOfAddress(ips[i]);
    addr := Pton(texts[i]).value;
  }

  const MAX_IPS: nat := 42

  ghost predicate Zeroed(n: Ip)
    reads n.state
  {
    n.Sized() && forall s, p :: 0 <= s < TOTAL_TYPE && 0 <= p < RANGE_PORT ==> n.state[s, p] == 0
  }

  ghost predicate AllZeroed(nodes: seq<Ip>)
    reads set n | n in nodes :: n.state
  {
    forall k :: 0 <= k < |nodes| ==> Zeroed(nodes[k])
  }

  function AddressesOf(nodes: seq<Ip>): (a: seq<Address>)
    ensures |a| == |nodes| && forall i :: 0 <= i < |a| ==> a[i] == nodes[i].addr
  {
    seq(|nodes|, i requires 0 <= i < |nodes| => nodes[i].addr)
  }
}
