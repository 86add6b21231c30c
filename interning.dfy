/**
 * Interning of external identifiers (product and user ids) into dense
 * integer indices, as the ingestion does with its two bidirectional maps:
 * an identifier not seen before gets the next index, starting at 1.
 */
module Interning {

  /** Forward direction of a bidirectional map: identifier to index. */
  type Index = map<string, nat>

  /** The indices `1..n`. */
  function Range(n: nat): (r: set<nat>)
    ensures forall i: nat :: i in r <==> 1 <= i <= n
    decreases n
  {
    if n == 0 then {} else Range(n - 1) + {n}
  }

  ghost predicate Injective(m: Index) {
    forall a, b | a in m && b in m && m[a] == m[b] :: a == b
  }

  /** Distinct identifiers have distinct indices, and the indices in use are exactly `1..|m|`. */
  ghost predicate Dense(m: Index) {
    Injective(m) && m.Values == Range(|m|)
  }

  /** `names` is the inverse view of `m`: index to identifier. */
  ghost predicate IsInverse(m: Index, names: map<nat, string>) {
    && names.Keys == m.Values
    && (forall k | k in m :: names[m[k]] == k)
  }

  /** What one lookup-or-insert does to the map: an unseen identifier gets `size + 1`. */
  function Interned(m: Index, id: string): (r: Index)
    ensures r.Keys == m.Keys + {id}
    ensures m.Items <= r.Items
  {
    if id in m then m else m[id := |m| + 1]
  }

  lemma RangeSucc(n: nat)
    ensures Range(n + 1) == Range(n) + {n + 1}
  {
  }

  lemma FreshValuesWithin(m: Index, id: string)
    requires Dense(m) && id !in m
    ensures m[id := |m| + 1].Values <= m.Values + {|m| + 1}
  {
    var m' := m[id := |m| + 1];
    forall v | v in m'.Values ensures v in m.Values + {|m| + 1} {
      var k :| k in m' && m'[k] == v;
      if k != id {
        assert m[k] == v;
      }
    }
  }

  lemma FreshValuesCover(m: Index, id: string)
    requires Dense(m) && id !in m
    ensures m.Values + {|m| + 1} <= m[id := |m| + 1].Values
  {
    var m' := m[id := |m| + 1];
    assert m'[id] == |m| + 1;
    forall v | v in m.Values ensures v in m'.Values {
      var k :| k in m && m[k] == v;
      assert m'[k] == v;
    }
  }

  lemma FreshValues(m: Index, id: string)
    requires Dense(m) && id !in m
    ensures m[id := |m| + 1].Values == Range(|m| + 1)
  {
    FreshValuesWithin(m, id);
    FreshValuesCover(m, id);
    RangeSucc(|m|);
  }

  lemma FreshInjective(m: Index, id: string)
    requires Dense(m) && id !in m
    ensures Injective(m[id := |m| + 1])
  {
    assert forall k | k in m :: m[k] in m.Values;
  }

  /** Interning keeps the map dense; it grows by one exactly when the identifier is new. */
  lemma InternKeepsDense(m: Index, id: string)
    requires Dense(m)
    ensures Dense(Interned(m, id))
    ensures id in Interned(m, id)
    ensures id in m ==> Interned(m, id) == m
    ensures id !in m ==> |Interned(m, id)| == |m| + 1 && Interned(m, id)[id] == |m| + 1
    ensures forall k | k in m :: k in Interned(m, id) && Interned(m, id)[k] == m[k]
  {
    if id !in m {
      FreshValues(m, id);
      FreshInjective(m, id);
    }
  }

  lemma FreshInverse(m: Index, names: map<nat, string>, id: string)
    requires Dense(m) && IsInverse(m, names) && id !in m
    ensures IsInverse(m[id := |m| + 1], names[|m| + 1 := id])
  {
    var n := |m|;
    var m', names' := m[id := n + 1], names[n + 1 := id];
    FreshValues(m, id);
    RangeSucc(n);
    assert names'.Keys == m'.Values;
    forall k | k in m' ensures names'[m'[k]] == k {
      if k != id {
        assert m[k] in m.Values;
      }
    }
  }

  /** The inverse view after interning, as a bidirectional map's `put` keeps it. */
  lemma InternKeepsInverse(m: Index, names: map<nat, string>, id: string)
    requires Dense(m) && IsInverse(m, names)
    ensures id in m ==> IsInverse(Interned(m, id), names)
    ensures id !in m ==> IsInverse(Interned(m, id), names[|m| + 1 := id])
  {
    if id !in m {
      FreshInverse(m, names, id);
    }
  }

  /** Every index in `1..|m|` resolves to the identifier that holds it. */
  lemma InverseTotal(m: Index, names: map<nat, string>, i: int)
    requires Dense(m) && IsInverse(m, names)
    requires 1 <= i <= |m|
    ensures i in names && names[i] in m && m[names[i]] == i
  {
    assert (i as nat) in Range(|m|);
    var k :| k in m && m[k] == i;
    assert names[m[k]] == k;
  }

  /** The inverse view is defined exactly on `1..|m|`. */
  lemma InverseKeys(m: Index, names: map<nat, string>, i: nat)
    requires Dense(m) && IsInverse(m, names)
    ensures i in names <==> 1 <= i <= |m|
  {
  }

  /** The inverse view is injective too: distinct indices resolve to distinct identifiers. */
  lemma InverseInjective(m: Index, names: map<nat, string>, i: int, j: int)
    requires Dense(m) && IsInverse(m, names)
    requires 1 <= i <= |m| && 1 <= j <= |m| && i != j
    ensures names[i] != names[j]
  {
    InverseTotal(m, names, i);
    InverseTotal(m, names, j);
  }

  /** Interning a sequence of identifiers, one after another. */
  function InternAll(m: Index, ids: seq<string>): Index
    decreases |ids|
  {
    if ids == [] then m else InternAll(Interned(m, ids[0]), ids[1..])
  }

  lemma {:induction false} InternAllKeepsDense(m: Index, ids: seq<string>)
    requires Dense(m)
    ensures Dense(InternAll(m, ids))
    ensures forall k | k in m :: k in InternAll(m, ids) && InternAll(m, ids)[k] == m[k]
    ensures forall i | 0 <= i < |ids| :: ids[i] in InternAll(m, ids)
    decreases |ids|
  {
    if ids != [] {
      InternKeepsDense(m, ids[0]);
      InternAllKeepsDense(Interned(m, ids[0]), ids[1..]);
      forall i | 0 <= i < |ids| ensures ids[i] in InternAll(m, ids) {
        if i > 0 {
          assert ids[i] == ids[1..][i - 1];
        }
      }
    }
  }

  ghost predicate Distinct(d: seq<string>) {
    forall i, j | 0 <= i < j < |d| :: d[i] != d[j]
  }

  /** `d` extended by each identifier of `ids` not already in it, in first-seen order. */
  function Extend(d: seq<string>, ids: seq<string>): seq<string>
    decreases |ids|
  {
    if ids == [] then d
    else Extend(if ids[0] in d then d else d + [ids[0]], ids[1..])
  }

  /** The distinct identifiers of `ids`, each once, in the order they first appear. */
  function FirstSeen(ids: seq<string>): seq<string> {
    Extend([], ids)
  }

  /** The map that gives `d[i]` the index `i + 1`. */
  function Numbering(d: seq<string>): Index
    decreases |d|
  {
    if d == [] then map[] else Numbering(d[..|d| - 1])[d[|d| - 1] := |d|]
  }

  lemma {:induction false} NumberingShape(d: seq<string>)
    requires Distinct(d)
    ensures |Numbering(d)| == |d|
    ensures forall x :: x in Numbering(d) <==> x in d
    ensures forall i | 0 <= i < |d| :: Numbering(d)[d[i]] == i + 1
    decreases |d|
  {
    if d != [] {
      var p := d[..|d| - 1];
      NumberingShape(p);
      assert d[|d| - 1] !in p;
      forall x ensures x in Numbering(d) <==> x in d {
        assert x in d <==> x in p || x == d[|d| - 1];
      }
      forall i | 0 <= i < |d| ensures Numbering(d)[d[i]] == i + 1 {
        if i < |d| - 1 {
          assert d[i] == p[i];
        }
      }
    }
  }

  lemma {:induction false} InternAllNumbering(d: seq<string>, ids: seq<string>)
    requires Distinct(d)
    ensures Distinct(Extend(d, ids))
    ensures InternAll(Numbering(d), ids) == Numbering(Extend(d, ids))
    decreases |ids|
  {
    if ids != [] {
      var x := ids[0];
      NumberingShape(d);
      if x in d {
        assert Interned(Numbering(d), x) == Numbering(d);
        InternAllNumbering(d, ids[1..]);
      } else {
        var d' := d + [x];
        assert d'[..|d'| - 1] == d;
        assert Interned(Numbering(d), x) == Numbering(d');
        InternAllNumbering(d', ids[1..]);
      }
    }
  }

  /**
   * Interning a sequence of identifiers into an empty map numbers the
   * distinct identifiers 1, 2, ... in the order they are first seen.
   */
  lemma FirstSeenOrder(ids: seq<string>)
    ensures Distinct(FirstSeen(ids))
    ensures InternAll(map[], ids) == Numbering(FirstSeen(ids))
    ensures |InternAll(map[], ids)| == |FirstSeen(ids)|
    ensures forall x :: x in InternAll(map[], ids) <==> x in ids
    ensures forall x :: x in FirstSeen(ids) <==> x in ids
    ensures forall i | 0 <= i < |FirstSeen(ids)| :: InternAll(map[], ids)[FirstSeen(ids)[i]] == i + 1
  {
    assert Numbering([]) == map[];
    InternAllNumbering([], ids);
    NumberingShape(FirstSeen(ids));
    FirstSeenMembers([], ids);
  }

  lemma {:induction false} FirstSeenMembers(d: seq<string>, ids: seq<string>)
    ensures forall x :: x in Extend(d, ids) <==> x in d || x in ids
    decreases |ids|
  {
    if ids != [] {
      var d' := if ids[0] in d then d else d + [ids[0]];
      FirstSeenMembers(d', ids[1..]);
      forall x ensures x in ids <==> x == ids[0] || x in ids[1..] {
        assert ids == [ids[0]] + ids[1..];
      }
    }
  }
}
