/**
  The intrusive circular doubly linked list of include/rtservice.h.  A node is named by its address;
  its two link fields live in the maps `next` and `prev`.  `nodes` is the ring read off from its head.
 */
module Rings {
  ghost predicate Distinct(s: seq<int>) {
    forall i, j :: 0 <= i < j < |s| ==> s[i] != s[j]
  }

  function Succ(i: nat, n: nat): nat { if i + 1 < n then i + 1 else 0 }

  function Pred(i: nat, n: nat): nat { if i > 0 then i - 1 else if n > 0 then n - 1 else 0 }

  ghost predicate NextOk(next: map<int, int>, s: seq<int>, i: int)
    requires 0 <= i < |s|
  {
    s[i] in next && next[s[i]] == s[Succ(i, |s|)]
  }

  ghost predicate PrevOk(prev: map<int, int>, s: seq<int>, i: int)
    requires 0 <= i < |s|
  {
    s[i] in prev && prev[s[i]] == s[Pred(i, |s|)]
  }

  ghost predicate Linked(next: map<int, int>, prev: map<int, int>, s: seq<int>) {
    && |s| > 0 && Distinct(s)
    && (forall i :: 0 <= i < |s| ==> NextOk(next, s, i))
    && (forall i :: 0 <= i < |s| ==> PrevOk(prev, s, i))
  }

  function Insert(s: seq<int>, k: nat, x: int): seq<int>
    requires k <= |s|
  {
    s[..k] + [x] + s[k..]
  }

  function RemoveAt(s: seq<int>, k: nat): seq<int>
    requires k < |s|
  {
    s[..k] + s[k + 1..]
  }

  lemma InsertDistinct(s: seq<int>, k: nat, x: int)
    requires Distinct(s) && k <= |s| && x !in s
    ensures Distinct(Insert(s, k, x))
  {
    var r := Insert(s, k, x);
    assert forall i :: 0 <= i < |r| ==> r[i] == if i < k then s[i] else if i == k then x else s[i - 1];
  }

  lemma RemoveDistinct(s: seq<int>, k: nat)
    requires Distinct(s) && k < |s|
    ensures Distinct(RemoveAt(s, k)) && s[k] !in RemoveAt(s, k)
    ensures forall x :: x in RemoveAt(s, k) <==> x in s && x != s[k]
  {
    var r := RemoveAt(s, k);
    assert forall i :: 0 <= i < |r| ==> r[i] == if i < k then s[i] else s[i + 1];
    forall x | x in s && x != s[k] ensures x in r {
      var i :| 0 <= i < |s| && s[i] == x;
      assert r[if i < k then i else i - 1] == x;
    }
  }

  lemma InsertNext(next: map<int, int>, s: seq<int>, k: nat, x: int, i: int)
    requires Distinct(s) && k < |s| && x !in s && 0 <= i <= |s|
    requires NextOk(next, s, k) && NextOk(next, s, if i <= k then i else i - 1)
    ensures NextOk(next[x := next[s[k]]][s[k] := x], Insert(s, k + 1, x), i)
  {
    var r := Insert(s, k + 1, x);
    assert r[i] == if i <= k then s[i] else if i == k + 1 then x else s[i - 1];
    var j := Succ(i, |r|);
    assert r[j] == if j <= k then s[j] else if j == k + 1 then x else s[j - 1];
  }

  lemma InsertPrev(prev: map<int, int>, s: seq<int>, k: nat, x: int, i: int)
    requires Distinct(s) && k < |s| && x !in s && 0 <= i <= |s|
    requires PrevOk(prev, s, if i <= k then i else i - 1)
    ensures PrevOk(prev[x := s[k]][s[Succ(k, |s|)] := x], Insert(s, k + 1, x), i)
  {
    var r := Insert(s, k + 1, x);
    assert r[i] == if i <= k then s[i] else if i == k + 1 then x else s[i - 1];
    var j := Pred(i, |r|);
    assert r[j] == if j <= k then s[j] else if j == k + 1 then x else s[j - 1];
  }

  lemma InsertLinks(next: map<int, int>, prev: map<int, int>, s: seq<int>, k: nat, x: int)
    requires Linked(next, prev, s) && k < |s| && x !in s
    ensures s[k] in next
    ensures var n := next[s[k]];
      Linked(next[x := n][s[k] := x], prev[x := s[k]][n := x], Insert(s, k + 1, x))
  {
    InsertDistinct(s, k + 1, x);
    assert NextOk(next, s, k);
    var next', prev', r := next[x := next[s[k]]][s[k] := x], prev[x := s[k]][next[s[k]] := x], Insert(s, k + 1, x);
    forall i | 0 <= i <= |s| ensures NextOk(next', r, i) && PrevOk(prev', r, i) {
      assert NextOk(next, s, if i <= k then i else i - 1) && PrevOk(prev, s, if i <= k then i else i - 1);
      InsertNext(next, s, k, x, i);
      InsertPrev(prev, s, k, x, i);
    }
  }

  lemma RemoveNext(next: map<int, int>, s: seq<int>, k: nat, i: int)
    requires Distinct(s) && 0 < k < |s| && 0 <= i < |s| - 1
    requires NextOk(next, s, k) && NextOk(next, s, if i < k then i else i + 1)
    ensures NextOk(next[s[k - 1] := next[s[k]]], RemoveAt(s, k), i)
  {
    var r := RemoveAt(s, k);
    assert r[i] == if i < k then s[i] else s[i + 1];
    var j := Succ(i, |r|);
    assert r[j] == if j < k then s[j] else s[j + 1];
  }

  lemma RemovePrev(prev: map<int, int>, s: seq<int>, k: nat, i: int)
    requires Distinct(s) && 0 < k < |s| && 0 <= i < |s| - 1
    requires PrevOk(prev, s, k) && PrevOk(prev, s, if i < k then i else i + 1)
    ensures PrevOk(prev[s[Succ(k, |s|)] := prev[s[k]]], RemoveAt(s, k), i)
  {
    var r := RemoveAt(s, k);
    assert r[i] == if i < k then s[i] else s[i + 1];
    var j := Pred(i, |r|);
    assert r[j] == if j < k then s[j] else s[j + 1];
  }

  lemma RemoveLinks(next: map<int, int>, prev: map<int, int>, s: seq<int>, k: nat)
    requires Linked(next, prev, s) && 0 < k < |s|
    ensures s[k] in next && s[k] in prev
    ensures Linked(next[prev[s[k]] := next[s[k]]], prev[next[s[k]] := prev[s[k]]], RemoveAt(s, k))
  {
    RemoveDistinct(s, k);
    assert NextOk(next, s, k) && PrevOk(prev, s, k);
    var next', prev', r := next[prev[s[k]] := next[s[k]]], prev[next[s[k]] := prev[s[k]]], RemoveAt(s, k);
    forall i | 0 <= i < |s| - 1 ensures NextOk(next', r, i) && PrevOk(prev', r, i) {
      assert NextOk(next, s, if i < k then i else i + 1) && PrevOk(prev, s, if i < k then i else i + 1);
      RemoveNext(next, s, k, i);
      RemovePrev(prev, s, k, i);
    }
  }

  // Removing what was just inserted gives the ring back.
  lemma RemoveUndoesInsert(s: seq<int>, k: nat, x: int)
    requires k <= |s|
    ensures RemoveAt(Insert(s, k, x), k) == s
  {
  }

  class Ring {
    var next: map<int, int>
    var prev: map<int, int>
    ghost var nodes: seq<int>

    ghost predicate Valid()
      reads this
    {
      Linked(next, prev, nodes)
    }

    // rt_list_init: a ring of one node.
    constructor (head: int)
      ensures Valid() && nodes == [head]
    {
      next, prev := map[head := head], map[head := head];
      nodes := [head];
    }

    // rt_list_insert_after(l, x), where `l` is node number `k`.
    method InsertAfter(l: int, x: int, ghost k: nat)
      requires Valid() && k < |nodes| && nodes[k] == l && x !in nodes
      modifies this
      ensures Valid() && nodes == Insert(old(nodes), k + 1, x)
    {
      InsertLinks(next, prev, nodes, k, x);
      var n := next[l];
      prev := prev[x := l][n := x];
      next := next[x := n][l := x];
      nodes := Insert(nodes, k + 1, x);
    }

    // rt_list_insert_before(l, x): behind the node in front of `l`.
    method InsertBefore(l: int, x: int, ghost k: nat)
      requires Valid() && k < |nodes| && nodes[k] == l && x !in nodes
      modifies this
      ensures Valid() && nodes == if k == 0 then old(nodes) + [x] else Insert(old(nodes), k, x)
    {
      assert PrevOk(prev, nodes, k);
      InsertAfter(prev[l], x, Pred(k, |nodes|));
    }

    // The first two statements of rt_list_remove.
    method Unlink(x: int, ghost k: nat)
      requires Valid() && 0 < k < |nodes| && nodes[k] == x
      modifies this
      ensures Valid() && nodes == RemoveAt(old(nodes), k)
    {
      RemoveLinks(next, prev, nodes, k);
      var n, p := next[x], prev[x];
      prev := prev[n := p];
      next := next[p := n];
      nodes := RemoveAt(nodes, k);
    }

    // rt_list_len: the nodes behind the head.
    method Len(l: int) returns (len: nat)
      requires Valid() && nodes[0] == l
      ensures len == |nodes| - 1
    {
      len := 0;
      var p := l;
      assert NextOk(next, nodes, 0);
      while next[p] != l
        invariant len < |nodes| && p == nodes[len] && p in next
        decreases |nodes| - len
      {
        assert NextOk(next, nodes, len);
        p := next[p];
        len := len + 1;
        assert NextOk(next, nodes, len);
      }
      assert NextOk(next, nodes, len);
    }
  }
}
