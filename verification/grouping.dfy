/**
 * Generic list machinery behind the settings editor's key list: order-keeping
 * filtering, sorting by a given comparison, and grouping keys by a
 * classification function.
 */
module Grouping {
  import opened Strings

  // ------------------------------------------------------------ subsequences

  lemma {:induction false} SubseqSkip<T>(a: seq<T>, b: seq<T>)
    requires b != [] && IsSubseq(a, b[1..])
    ensures IsSubseq(a, b)
    decreases |a| + |b|
  {
    if a != [] && a[0] == b[0] {
      SubseqDropFirst(a, b[1..]);
    }
  }

  lemma {:induction false} SubseqDropFirst<T>(a: seq<T>, b: seq<T>)
    requires a != [] && IsSubseq(a, b)
    ensures IsSubseq(a[1..], b)
    decreases |a| + |b|
  {
    if a[0] == b[0] {
      if a[1..] != [] {
        SubseqSkip(a[1..], b);
      }
    } else {
      SubseqDropFirst(a, b[1..]);
      if a[1..] != [] {
        SubseqSkip(a[1..], b);
      }
    }
  }

  lemma SubseqRefl<T>(a: seq<T>)
    ensures IsSubseq(a, a)
    decreases |a|
  {
    if a != [] {
      SubseqRefl(a[1..]);
    }
  }

  // --------------------------------------------------------------- filtering

  /** The elements of `xs` satisfying `p`, in their original order (`Array.prototype.filter`). */
  function Keep<T(==,!new)>(xs: seq<T>, p: T -> bool): (r: seq<T>)
    ensures forall x :: x in r <==> x in xs && p(x)
    ensures IsSubseq(r, xs)
    ensures NoDup(xs) ==> NoDup(r)
    decreases |xs|
  {
    if xs == [] then []
    else
      var rest := Keep(xs[1..], p);
      if p(xs[0]) then
        assert ([xs[0]] + rest)[1..] == rest;
        [xs[0]] + rest
      else
        SubseqSkip(rest, xs);
        rest
  }

  datatype GroupInfo = GroupInfo(id: string, title: string)

  // ----------------------------------------------------------------- sorting

  /** In a list without duplicates the head does not recur, and the tail has no duplicates either. */
  lemma NotInTail<T>(xs: seq<T>)
    requires xs != [] && NoDup(xs)
    ensures xs[0] !in xs[1..] && NoDup(xs[1..])
  {
    forall j | 0 <= j < |xs[1..]| ensures xs[1..][j] != xs[0] {
      assert xs[1..][j] == xs[j + 1];
    }
  }

  /** Putting a new element in front of a list without duplicates keeps it without duplicates. */
  lemma ConsNoDup<T>(x: T, xs: seq<T>)
    requires x !in xs && NoDup(xs)
    ensures NoDup([x] + xs)
  {
    var r := [x] + xs;
    forall i, j | 0 <= i < j < |r| ensures r[i] != r[j] {
      assert r[j] == xs[j - 1];
      if i > 0 { assert r[i] == xs[i - 1]; }
    }
  }

  /** `le(a, b)` stands for `a.localeCompare(b) <= 0`; any two strings are comparable. */
  ghost predicate Total(le: (string, string) -> bool) {
    forall a, b :: le(a, b) || le(b, a)
  }

  /** Each key is at least its successor: the order `(a, b) => b.localeCompare(a)` sorts into. */
  predicate Descending(xs: seq<string>, le: (string, string) -> bool) {
    forall i :: 0 <= i < |xs| - 1 ==> le(xs[i + 1], xs[i])
  }

  function Insert(x: string, xs: seq<string>, le: (string, string) -> bool): (r: seq<string>)
    requires Total(le) && Descending(xs, le)
    ensures Descending(r, le)
    ensures multiset(r) == multiset(xs) + multiset{x}
    ensures |r| > 0 && (r[0] == x || (xs != [] && r[0] == xs[0]))
    ensures NoDup(xs) && x !in xs ==> NoDup(r)
    decreases |xs|
  {
    if xs == [] || le(xs[0], x) then [x] + xs
    else
      var rest := Insert(x, xs[1..], le);
      assert xs == [xs[0]] + xs[1..];
      assert NoDup(xs) && x !in xs ==> NoDup([xs[0]] + rest) by {
        if NoDup(xs) && x !in xs {
          NotInTail(xs);
          assert xs[0] !in multiset(rest);
          ConsNoDup(xs[0], rest);
        }
      }
      [xs[0]] + rest
  }

  /** `keys.sort((a, b) => b.localeCompare(a))`: a descending permutation. */
  function SortDescending(xs: seq<string>, le: (string, string) -> bool): (r: seq<string>)
    requires Total(le)
    ensures Descending(r, le)
    ensures multiset(r) == multiset(xs)
    ensures |r| == |xs|
    ensures NoDup(xs) ==> NoDup(r)
    decreases |xs|
  {
    if xs == [] then []
    else
      assert xs == [xs[0]] + xs[1..];
      var sorted := SortDescending(xs[1..], le);
      assert NoDup(xs) ==> xs[0] !in sorted && NoDup(sorted) by {
        if NoDup(xs) {
          NotInTail(xs);
          assert xs[0] !in multiset(sorted);
        }
      }
      Insert(xs[0], sorted, le)
  }

  // ---------------------------------------------------------- grouped view

  datatype Group = Group(info: GroupInfo, keys: seq<string>)

  /** The keys of `keys` that `groupOf` assigns to `g`, in their listed order. */
  function Members(keys: seq<string>, g: GroupInfo, groupOf: string -> GroupInfo): (r: seq<string>)
    ensures forall k :: k in r <==> k in keys && groupOf(k) == g
    ensures NoDup(keys) ==> NoDup(r)
  {
    Keep(keys, k => groupOf(k) == g)
  }

  function Infos(groups: seq<Group>): (r: seq<GroupInfo>)
    ensures |r| == |groups| && forall i :: 0 <= i < |groups| ==> r[i] == groups[i].info
  {
    seq(|groups|, i requires 0 <= i < |groups| => groups[i].info)
  }

  /** Groups of `order` that `groupOf` assigns at least one key to. */
  function Present(order: seq<GroupInfo>, keys: seq<string>, groupOf: string -> GroupInfo)
    : (r: seq<GroupInfo>)
    ensures forall g :: g in r <==> g in order && exists k :: k in keys && groupOf(k) == g
    ensures IsSubseq(r, order)
    ensures NoDup(order) ==> NoDup(r)
  {
    Keep(order, g => Members(keys, g, groupOf) != [])
  }

  /**
   * One group per entry of `order` that has members, in that order, each
   * holding its members sorted in descending order.
   */
  function BuildGroups(order: seq<GroupInfo>, keys: seq<string>, groupOf: string -> GroupInfo,
                       le: (string, string) -> bool): (r: seq<Group>)
    requires Total(le)
    ensures Infos(r) == Present(order, keys, groupOf)
    ensures forall i :: 0 <= i < |r| ==> r[i].keys != [] && Descending(r[i].keys, le)
    ensures forall i, k :: 0 <= i < |r| ==> (k in r[i].keys <==> k in keys && groupOf(k) == r[i].info)
    ensures forall i :: 0 <= i < |r| ==> multiset(r[i].keys) == multiset(Members(keys, r[i].info, groupOf))
    ensures NoDup(keys) ==> forall i :: 0 <= i < |r| ==> NoDup(r[i].keys)
    ensures IsSubseq(Infos(r), order)
    ensures NoDup(order) ==> NoDup(Infos(r))
  {
    var present := Present(order, keys, groupOf);
    var r := seq(|present|, i requires 0 <= i < |present| =>
                   Group(present[i], SortDescending(Members(keys, present[i], groupOf), le)));
    assert forall i :: 0 <= i < |r| ==> r[i].keys != [] by {
      forall i | 0 <= i < |r| ensures r[i].keys != [] {
        assert present[i] in present;
        assert |r[i].keys| == |Members(keys, present[i], groupOf)|;
      }
    }
    assert forall i, k :: 0 <= i < |r| ==> (k in r[i].keys <==> k in Members(keys, present[i], groupOf)) by {
      forall i, k | 0 <= i < |r|
        ensures k in r[i].keys <==> k in Members(keys, present[i], groupOf)
      {
        assert k in r[i].keys <==> k in multiset(r[i].keys);
        assert k in Members(keys, present[i], groupOf) <==> k in multiset(Members(keys, present[i], groupOf));
      }
    }
    r
  }

  /** A key whose group is listed appears in the view: in the one group it belongs to and in no other. */
  lemma KeyInExactlyOneGroup(order: seq<GroupInfo>, keys: seq<string>, groupOf: string -> GroupInfo,
                             le: (string, string) -> bool, k: string)
    requires Total(le) && NoDup(order)
    requires k in keys && groupOf(k) in order
    ensures var r := BuildGroups(order, keys, groupOf, le);
            exists i :: 0 <= i < |r| && k in r[i].keys && r[i].info == groupOf(k)
              && forall j :: 0 <= j < |r| && j != i ==> k !in r[j].keys
  {
    var r := BuildGroups(order, keys, groupOf, le);
    assert groupOf(k) in Present(order, keys, groupOf);
    var i :| 0 <= i < |r| && Infos(r)[i] == groupOf(k);
    forall j | 0 <= j < |r| && j != i
      ensures k !in r[j].keys
    {
      assert Infos(r)[i] != Infos(r)[j];
    }
  }

  /** `groups` lists exactly `keys`, each in the group `groupOf` assigns it. */
  ghost predicate ShowsExactly(groups: seq<Group>, keys: seq<string>, groupOf: string -> GroupInfo) {
    && (forall i, k :: 0 <= i < |groups| ==> (k in groups[i].keys <==> k in keys && groupOf(k) == groups[i].info))
    && (forall k :: k in keys ==>
          exists i :: 0 <= i < |groups| && groups[i].info == groupOf(k) && k in groups[i].keys)
  }

  /** When every key's group is in the order, the grouped view leaves no key out. */
  lemma BuildGroupsShowsAll(order: seq<GroupInfo>, keys: seq<string>, groupOf: string -> GroupInfo,
                            le: (string, string) -> bool)
    requires Total(le) && NoDup(order)
    requires forall k :: k in keys ==> groupOf(k) in order
    ensures ShowsExactly(BuildGroups(order, keys, groupOf, le), keys, groupOf)
  {
    var r := BuildGroups(order, keys, groupOf, le);
    forall k | k in keys
      ensures exists i :: 0 <= i < |r| && r[i].info == groupOf(k) && k in r[i].keys
    {
      KeyInExactlyOneGroup(order, keys, groupOf, le, k);
    }
  }
}
