// The circular doubly linked lists of SC_List.h: bins are list heads, free
// chunks their members.
module Rings {

  // Position k of the ring head, list[0], list[1], ..
  function At(head: int, list: seq<int>, k: int): int {
    if 0 <= k < |list| then list[k] else head
  }

  ghost predicate Linked(next: map<int, int>, prev: map<int, int>, a: int, b: int) {
    a in next && next[a] == b && b in prev && prev[b] == a
  }

  ghost predicate RingOK(next: map<int, int>, prev: map<int, int>, head: int, list: seq<int>) {
    forall k :: 0 <= k <= |list| ==> Linked(next, prev, At(head, list, k - 1), At(head, list, k))
  }

  ghost predicate Distinct(head: int, list: seq<int>) {
    && head !in list
    && forall i, j :: 0 <= i < j < |list| ==> list[i] != list[j]
  }

  function Inserted(list: seq<int>, k: nat, c: int): seq<int>
    requires k <= |list|
  {
    list[..k] + [c] + list[k..]
  }

  function Removed(list: seq<int>, k: nat): seq<int>
    requires k < |list|
  {
    list[..k] + list[k + 1..]
  }

  // The ring ends are reached through the head.
  lemma Ends(next: map<int, int>, prev: map<int, int>, head: int, list: seq<int>)
    requires RingOK(next, prev, head, list)
    ensures head in next && next[head] == At(head, list, 0)
    ensures head in prev && prev[head] == At(head, list, |list| - 1)
  {
    assert Linked(next, prev, At(head, list, -1), At(head, list, 0));
    assert Linked(next, prev, At(head, list, |list| - 1), At(head, list, |list|));
  }

  lemma Neighbours(next: map<int, int>, prev: map<int, int>, head: int, list: seq<int>, k: nat)
    requires RingOK(next, prev, head, list) && k < |list|
    ensures list[k] in next && next[list[k]] == At(head, list, k + 1)
    ensures list[k] in prev && prev[list[k]] == At(head, list, k - 1)
    ensures At(head, list, k - 1) in next && At(head, list, k + 1) in prev
  {
    assert Linked(next, prev, At(head, list, k - 1), At(head, list, k));
    assert Linked(next, prev, At(head, list, k + 1 - 1), At(head, list, k + 1));
  }

  lemma InsertRing(next: map<int, int>, prev: map<int, int>, head: int, list: seq<int>, k: nat, c: int)
    requires RingOK(next, prev, head, list) && Distinct(head, list) && k <= |list|
    requires c != head && c !in list
    ensures Distinct(head, Inserted(list, k, c))
    ensures RingOK(next[c := At(head, list, k)][At(head, list, k - 1) := c],
                   prev[c := At(head, list, k - 1)][At(head, list, k) := c], head, Inserted(list, k, c))
  {
    var list' := Inserted(list, k, c);
    var next' := next[c := At(head, list, k)][At(head, list, k - 1) := c];
    var prev' := prev[c := At(head, list, k - 1)][At(head, list, k) := c];
    forall i | 0 <= i <= |list'|
      ensures Linked(next', prev', At(head, list', i - 1), At(head, list', i))
    {
      if i < k {
        assert Linked(next, prev, At(head, list, i - 1), At(head, list, i));
      } else if i > k + 1 {
        assert Linked(next, prev, At(head, list, i - 1 - 1), At(head, list, i - 1));
      }
    }
  }

  lemma RemoveRing(next: map<int, int>, prev: map<int, int>, head: int, list: seq<int>, k: nat)
    requires RingOK(next, prev, head, list) && Distinct(head, list) && k < |list|
    ensures Distinct(head, Removed(list, k))
    ensures RingOK(next[At(head, list, k - 1) := At(head, list, k + 1)],
                   prev[At(head, list, k + 1) := At(head, list, k - 1)], head, Removed(list, k))
  {
    var list' := Removed(list, k);
    var next' := next[At(head, list, k - 1) := At(head, list, k + 1)];
    var prev' := prev[At(head, list, k + 1) := At(head, list, k - 1)];
    forall i | 0 <= i <= |list'|
      ensures Linked(next', prev', At(head, list', i - 1), At(head, list', i))
    {
      if i < k {
        assert Linked(next, prev, At(head, list, i - 1), At(head, list, i));
      } else if i > k {
        assert Linked(next, prev, At(head, list, i + 1 - 1), At(head, list, i + 1));
      }
    }
  }

  // A ring is untouched by writes to links of nodes that are not on it.
  lemma OtherRing(next: map<int, int>, prev: map<int, int>, head: int, list: seq<int>,
                  next': map<int, int>, prev': map<int, int>)
    requires RingOK(next, prev, head, list)
    requires forall x :: (x == head || x in list) && x in next ==> x in next' && next'[x] == next[x]
    requires forall x :: (x == head || x in list) && x in prev ==> x in prev' && prev'[x] == prev[x]
    ensures RingOK(next', prev', head, list)
  {
    forall k | 0 <= k <= |list|
      ensures Linked(next', prev', At(head, list, k - 1), At(head, list, k))
    {
      assert Linked(next, prev, At(head, list, k - 1), At(head, list, k));
    }
  }

  lemma AtMember(head: int, list: seq<int>, k: int)
    ensures At(head, list, k) == head || At(head, list, k) in list
  {
  }

  // A ring may be entered at any of its nodes.
  lemma Rotate(next: map<int, int>, prev: map<int, int>, head: int, list: seq<int>, k: nat)
    requires RingOK(next, prev, head, list) && Distinct(head, list) && k < |list|
    ensures var list' := list[k + 1..] + [head] + list[..k];
            RingOK(next, prev, list[k], list') && Distinct(list[k], list')
  {
    var n, list' := |list|, list[k + 1..] + [head] + list[..k];
    forall i | 0 <= i <= n
      ensures Linked(next, prev, At(list[k], list', i - 1), At(list[k], list', i))
    {
      var j := if i + k + 1 <= n then i + k + 1 else i + k - n;
      assert Linked(next, prev, At(head, list, j - 1), At(head, list, j));
    }
  }

  // --- rings without a head of their own: the areas ---

  // The node x of a ring of areas: its links, and whether it is alone.
  lemma AreaLinks(next: map<int, int>, prev: map<int, int>, ring: seq<int>, x: int)
    requires ring != [] && RingOK(next, prev, ring[0], ring[1..]) && Distinct(ring[0], ring[1..]) && x in ring
    ensures x in next && x in prev
    ensures next[x] == x <==> |ring| == 1
    ensures |ring| == 1 ==> ring == [x]
  {
    var r := Rerooted(next, prev, ring, x);
    Ends(next, prev, x, r[1..]);
  }

  // The ring entered at x.
  lemma Rerooted(next: map<int, int>, prev: map<int, int>, ring: seq<int>, x: int) returns (r: seq<int>)
    requires ring != [] && RingOK(next, prev, ring[0], ring[1..]) && Distinct(ring[0], ring[1..]) && x in ring
    ensures |r| == |ring| && r[0] == x && RingOK(next, prev, x, r[1..]) && Distinct(x, r[1..])
    ensures forall y :: y in r <==> y in ring
  {
    var k :| 0 <= k < |ring| && ring[k] == x;
    if k == 0 {
      r := ring;
    } else {
      var list := ring[1..];
      Rotate(next, prev, ring[0], list, k - 1);
      var list' := list[k..] + [ring[0]] + list[..k - 1];
      r := [x] + list';
      assert r[1..] == list';
      assert ring == [ring[0]] + list[..k - 1] + [x] + list[k..];
    }
  }

  lemma AreaUnlink(next: map<int, int>, prev: map<int, int>, ring: seq<int>, x: int) returns (r: seq<int>)
    requires |ring| > 1 && RingOK(next, prev, ring[0], ring[1..]) && Distinct(ring[0], ring[1..]) && x in ring
    ensures x in next && x in prev && |r| == |ring| - 1 && r[0] == next[x]
    ensures RingOK(next[prev[x] := next[x]], prev[next[x] := prev[x]], r[0], r[1..]) && Distinct(r[0], r[1..])
    ensures forall y :: y in r <==> y in ring && y != x
  {
    var s := Rerooted(next, prev, ring, x);
    Ends(next, prev, x, s[1..]);
    var n := next[x];
    var t := Rerooted(next, prev, s, n);
    Ends(next, prev, n, t[1..]);
    var last := |t| - 2;
    Linkage(next, prev, n, t[1..], x);
    RemoveRing(next, prev, n, t[1..], last);
    r := [n] + Removed(t[1..], last);
    assert r[1..] == Removed(t[1..], last);
    assert t == [n] + t[1..][..last] + [x];
  }

  // The node before the head is the last one.
  lemma Linkage(next: map<int, int>, prev: map<int, int>, head: int, list: seq<int>, x: int)
    requires RingOK(next, prev, head, list) && Distinct(head, list) && list != []
    requires x in next && next[x] == head && (x in list || x == head)
    ensures list[|list| - 1] == x && x in prev
    ensures next[x] == At(head, list, |list|) && prev[x] == At(head, list, |list| - 2)
  {
    Ends(next, prev, head, list);
    if x == head {
    } else {
      var k :| 0 <= k < |list| && list[k] == x;
      Neighbours(next, prev, head, list, k);
    }
  }

  // A node inserted between the last node and the first, and made the first.
  lemma AreaLink(next: map<int, int>, prev: map<int, int>, ring: seq<int>, x: int)
    requires ring != [] && RingOK(next, prev, ring[0], ring[1..]) && Distinct(ring[0], ring[1..]) && x !in ring
    ensures ring[0] in prev
    ensures RingOK(next[x := ring[0]][prev[ring[0]] := x], prev[x := prev[ring[0]]][ring[0] := x], x, ring)
    ensures Distinct(x, ring)
  {
    var head, list := ring[0], ring[1..];
    Ends(next, prev, head, list);
    InsertRing(next, prev, head, list, |list|, x);
    var list' := Inserted(list, |list|, x);
    Rotate(next[x := head][prev[head] := x], prev[x := prev[head]][head := x], head, list', |list|);
    assert list'[|list| + 1..] + [head] + list'[..|list|] == ring;
  }

  lemma LoneArea(next: map<int, int>, prev: map<int, int>, x: int)
    ensures RingOK(next[x := x], prev[x := x], x, []) && Distinct(x, [])
  {
  }

  // Following the links of a ring of areas from its first node.
  lemma AreaStep(next: map<int, int>, prev: map<int, int>, ring: seq<int>, j: nat)
    requires ring != [] && RingOK(next, prev, ring[0], ring[1..]) && j < |ring|
    ensures ring[j] in next && next[ring[j]] == (if j + 1 < |ring| then ring[j + 1] else ring[0])
  {
    Ends(next, prev, ring[0], ring[1..]);
    if j > 0 {
      Neighbours(next, prev, ring[0], ring[1..], j - 1);
    }
  }

  lemma RingDistinct(ring: seq<int>, i: nat, j: nat)
    requires ring != [] && Distinct(ring[0], ring[1..]) && i < j < |ring|
    ensures ring[i] != ring[j]
  {
    assert ring[j] == ring[1..][j - 1];
    if i > 0 {
      assert ring[i] == ring[1..][i - 1];
    }
  }
}
