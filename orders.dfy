/**
 * Sequences of keys standing for the order of a Python list of keys or of an
 * `OrderedDict`, the list and dictionary operations the caches use on them,
 * and the orderings by ghost time stamps that describe the eviction rules.
 */
module Orders {

  /** No key occurs twice. */
  ghost predicate NoDup<K>(s: seq<K>) {
    forall i, j :: 0 <= i < j < |s| ==> s[i] != s[j]
  }

  /** The keys of `s`, as a set. */
  function Elems<K>(s: seq<K>): set<K> {
    if s == [] then {} else Elems(s[..|s| - 1]) + {s[|s| - 1]}
  }

  /** `Elems` holds exactly the members of the sequence. */
  lemma {:induction false} ElemsIn<K>(s: seq<K>, x: K)
    ensures x in Elems(s) <==> x in s
  {
    if s != [] {
      var init := s[..|s| - 1];
      ElemsIn(init, x);
      assert s == init + [s[|s| - 1]];
    }
  }

  /** The keys of a concatenation are the keys of its parts. */
  lemma {:induction false} ElemsConcat<K>(a: seq<K>, b: seq<K>)
    ensures Elems(a + b) == Elems(a) + Elems(b)
  {
    if b == [] {
      assert a + b == a;
    } else {
      var init := b[..|b| - 1];
      assert (a + b)[..|a + b| - 1] == a + init;
      ElemsConcat(a, init);
    }
  }

  /** `order` lists the keys of `m`, each once. */
  ghost predicate Tracks<K, V>(order: seq<K>, m: map<K, V>) {
    NoDup(order) && m.Keys == Elems(order)
  }

  /** `len(cache_data)` can be read off the order. */
  lemma {:induction false} TracksSize<K, V>(order: seq<K>, m: map<K, V>)
    requires Tracks(order, m)
    ensures |m| == |order|
  {
    if order != [] {
      var init, last := order[..|order| - 1], order[|order| - 1];
      ElemsIn(init, last);
      assert last !in init by {
        forall i | 0 <= i < |init| ensures init[i] != last {
          assert init[i] == order[i];
        }
      }
      assert NoDup(init) by {
        forall i, j | 0 <= i < j < |init| ensures init[i] != init[j] {
          assert init[i] == order[i] && init[j] == order[j];
        }
      }
      TracksSize(init, m - {last});
    }
  }

  /**
   * `s` without the first occurrence of `k`: `list.remove(k)`, or `dict.pop(k)`
   * on the order. A missing key leaves `s` as it is.
   */
  function Remove<K(==)>(s: seq<K>, k: K): (r: seq<K>)
    ensures k !in s ==> r == s
    ensures k in s ==> |r| == |s| - 1
  {
    if s == [] then []
    else if s[0] == k then s[1..]
    else assert s == [s[0]] + s[1..]; [s[0]] + Remove(s[1..], k)
  }

  /** The position of the first `k` in `s`: `list.index(k)`. */
  function IndexOf<K(==)>(s: seq<K>, k: K): (i: nat)
    requires k in s
    ensures i < |s| && s[i] == k && k !in s[..i]
  {
    if s[0] == k then
      assert s[..0] == [];
      0
    else
      assert s == [s[0]] + s[1..];
      var j := IndexOf(s[1..], k);
      assert s[..j + 1] == [s[0]] + s[1..][..j];
      j + 1
  }

  /** `Remove` drops exactly the first `k` and keeps the others in their order. */
  lemma {:induction false} RemoveFirst<K>(s: seq<K>, k: K)
    requires k in s
    ensures Remove(s, k) == s[..IndexOf(s, k)] + s[IndexOf(s, k) + 1..]
  {
    if s[0] != k {
      var tail := s[1..];
      assert s == [s[0]] + tail;
      RemoveFirst(tail, k);
      var j := IndexOf(tail, k);
      calc {
        Remove(s, k);
        [s[0]] + Remove(tail, k);
        [s[0]] + (tail[..j] + tail[j + 1..]);
        { assert [s[0]] + tail[..j] == s[..j + 1]; assert tail[j + 1..] == s[j + 2..]; }
        s[..j + 1] + s[j + 2..];
      }
    }
  }

  /** Whatever `Remove` keeps was in the sequence. */
  lemma {:induction false} RemoveSubset<K>(s: seq<K>, k: K, x: K)
    requires x in Remove(s, k)
    ensures x in s
  {
    if s != [] && s[0] != k && x != s[0] {
      RemoveSubset(s[1..], k, x);
    }
  }

  /** In a sequence without repetitions, `Remove` keeps exactly the other keys. */
  lemma {:induction false} RemoveIn<K>(s: seq<K>, k: K, x: K)
    requires NoDup(s)
    ensures x in Remove(s, k) <==> x in s && x != k
  {
    if s != [] {
      var tail := s[1..];
      assert s == [s[0]] + tail;
      assert NoDup(tail) by {
        forall i, j | 0 <= i < j < |tail| ensures tail[i] != tail[j] {
          assert tail[i] == s[i + 1] && tail[j] == s[j + 1];
        }
      }
      if s[0] == k {
        assert k !in tail by {
          forall i | 0 <= i < |tail| ensures tail[i] != k {
            assert tail[i] == s[i + 1];
          }
        }
      } else {
        RemoveIn(tail, k, x);
      }
    }
  }

  /** The set form of `RemoveIn`. */
  lemma {:induction false} RemoveElems<K>(s: seq<K>, k: K)
    requires NoDup(s)
    ensures Elems(Remove(s, k)) == Elems(s) - {k}
  {
    if s != [] {
      var tail := s[1..];
      assert s == [s[0]] + tail;
      ElemsConcat([s[0]], tail);
      assert Elems([s[0]]) == {s[0]} by {
        assert [s[0]][..0] == [];
      }
      assert NoDup(tail) by {
        forall i, j | 0 <= i < j < |tail| ensures tail[i] != tail[j] {
          assert tail[i] == s[i + 1] && tail[j] == s[j + 1];
        }
      }
      if s[0] == k {
        ElemsIn(tail, k);
        assert k !in tail by {
          forall i | 0 <= i < |tail| ensures tail[i] != k {
            assert tail[i] == s[i + 1];
          }
        }
      } else {
        RemoveElems(tail, k);
        ElemsConcat([s[0]], Remove(tail, k));
      }
    }
  }

  /** Removing a key that was just appended gives back the sequence before. */
  lemma {:induction false} RemoveAppended<K>(s: seq<K>, k: K)
    requires k !in s
    ensures Remove(s + [k], k) == s
  {
    if s == [] {
      assert [k][1..] == [];
    } else {
      assert (s + [k])[1..] == s[1..] + [k];
      RemoveAppended(s[1..], k);
      assert s == [s[0]] + s[1..];
    }
  }

  /** `OrderedDict.move_to_end(k, last=True)`: `k` goes to the end, the rest keep their order. */
  function MoveToEnd<K(==)>(s: seq<K>, k: K): (r: seq<K>)
    requires k in s
    ensures |r| == |s| && r[|r| - 1] == k
  {
    Remove(s, k) + [k]
  }

  /** `OrderedDict.move_to_end(k, last=False)`: `k` goes to the front, the rest keep their order. */
  function MoveToFront<K(==)>(s: seq<K>, k: K): (r: seq<K>)
    requires k in s
    ensures |r| == |s| && r[0] == k
  {
    [k] + Remove(s, k)
  }

  /** Moving a just-appended key to the end changes nothing. */
  lemma MoveLastToEnd<K>(s: seq<K>, k: K)
    requires k !in s
    ensures MoveToEnd(s + [k], k) == s + [k]
  {
    RemoveAppended(s, k);
  }

  /** Moving a just-appended key to the front puts it before the others. */
  lemma MoveLastToFront<K>(s: seq<K>, k: K)
    requires k !in s
    ensures MoveToFront(s + [k], k) == [k] + s
  {
    RemoveAppended(s, k);
  }

  /** Which end of the order holds the oldest stamp. */
  datatype Direction = OldestFirst | NewestFirst

  /** A stamp `a` may stand before a stamp `b` in an order of direction `dir`. */
  predicate Precedes(a: nat, b: nat, dir: Direction) {
    match dir
    case OldestFirst => a < b
    case NewestFirst => a > b
  }

  /** Every key of `s` has a stamp, and neighbours are strictly ordered by stamp as `dir` says. */
  ghost predicate Chain<K>(s: seq<K>, stamp: map<K, nat>, dir: Direction)
    decreases |s|
  {
    |s| == 0 ||
    (&& s[0] in stamp
     && Chain(s[1..], stamp, dir)
     && (|s| == 1 || (s[1] in stamp && Precedes(stamp[s[0]], stamp[s[1]], dir))))
  }

  /** Any two keys of a chain, not only neighbours, are ordered by stamp. */
  lemma {:induction false} ChainPair<K>(s: seq<K>, stamp: map<K, nat>, dir: Direction, i: nat, j: nat)
    requires Chain(s, stamp, dir) && i < j < |s|
    ensures s[i] in stamp && s[j] in stamp && Precedes(stamp[s[i]], stamp[s[j]], dir)
    decreases j
  {
    if i > 0 {
      ChainPair(s[1..], stamp, dir, i - 1, j - 1);
    } else if j > 1 {
      ChainPair(s[1..], stamp, dir, 0, j - 1);
    }
  }

  /** Strictly ordered stamps leave no room for a repeated key. */
  lemma ChainNoDup<K>(s: seq<K>, stamp: map<K, nat>, dir: Direction)
    requires Chain(s, stamp, dir)
    ensures NoDup(s)
  {
    forall i, j | 0 <= i < j < |s| ensures s[i] != s[j] {
      ChainPair(s, stamp, dir, i, j);
    }
  }

  /** Restamping a key outside the chain does not disturb it. */
  lemma {:induction false} ChainUpdate<K>(s: seq<K>, stamp: map<K, nat>, dir: Direction, k: K, t: nat)
    requires Chain(s, stamp, dir) && k !in s
    ensures Chain(s, stamp[k := t], dir)
    decreases |s|
  {
    if s != [] {
      assert k !in s[1..];
      ChainUpdate(s[1..], stamp, dir, k, t);
    }
  }

  /** Dropping the stamp of a key outside the chain does not disturb it. */
  lemma {:induction false} ChainDelete<K>(s: seq<K>, stamp: map<K, nat>, dir: Direction, k: K)
    requires Chain(s, stamp, dir) && k !in s
    ensures Chain(s, stamp - {k}, dir)
    decreases |s|
  {
    if s != [] {
      assert k !in s[1..];
      ChainDelete(s[1..], stamp, dir, k);
    }
  }

  /** A key that may follow the last one extends the chain at the end. */
  lemma {:induction false} ChainSnoc<K>(s: seq<K>, stamp: map<K, nat>, dir: Direction, k: K)
    requires Chain(s, stamp, dir) && k in stamp
    requires |s| == 0 || (s[|s| - 1] in stamp && Precedes(stamp[s[|s| - 1]], stamp[k], dir))
    ensures Chain(s + [k], stamp, dir)
    decreases |s|
  {
    if s == [] {
      assert [k][1..] == [];
    } else {
      assert (s + [k])[1..] == s[1..] + [k];
      ChainSnoc(s[1..], stamp, dir, k);
    }
  }

  /** A key that may precede the first one extends the chain at the front. */
  lemma ChainCons<K>(s: seq<K>, stamp: map<K, nat>, dir: Direction, k: K)
    requires Chain(s, stamp, dir) && k in stamp
    requires |s| == 0 || (s[0] in stamp && Precedes(stamp[k], stamp[s[0]], dir))
    ensures Chain([k] + s, stamp, dir)
  {
    assert ([k] + s)[1..] == s;
  }

  /** The chain without its last key is still a chain. */
  lemma {:induction false} ChainDropLast<K>(s: seq<K>, stamp: map<K, nat>, dir: Direction)
    requires Chain(s, stamp, dir) && |s| > 0
    ensures Chain(s[..|s| - 1], stamp, dir)
    decreases |s|
  {
    var init := s[..|s| - 1];
    if |s| > 1 {
      assert init[1..] == s[1..][..|s| - 2];
      ChainDropLast(s[1..], stamp, dir);
    }
  }

  /** Taking a key out of a chain keeps the others in order. */
  lemma {:induction false} ChainRemove<K>(s: seq<K>, stamp: map<K, nat>, dir: Direction, k: K)
    requires Chain(s, stamp, dir)
    ensures Chain(Remove(s, k), stamp, dir)
    decreases |s|
  {
    if s != [] && s[0] != k {
      var tail := s[1..];
      var rest := Remove(tail, k);
      ChainRemove(tail, stamp, dir, k);
      if |rest| > 0 {
        RemoveSubset(tail, k, rest[0]);
        var j :| 0 <= j < |tail| && tail[j] == rest[0];
        ChainPair(s, stamp, dir, 0, j + 1);
      }
      ChainCons(rest, stamp, dir, s[0]);
    }
  }

  /** Every stamp is older than `time`. */
  ghost predicate StampsBefore<K>(stamp: map<K, nat>, time: nat) {
    forall k :: k in stamp ==> stamp[k] < time
  }

  /**
   * The bookkeeping of the ordered caches: `order` lists the keys of `m`, each
   * present key has a stamp older than `clock`, and the stamps go from old to
   * new along `order` (`OldestFirst`) or from new to old (`NewestFirst`).
   */
  ghost predicate Stamped<K, V>(order: seq<K>, m: map<K, V>, stamp: map<K, nat>, clock: nat, dir: Direction) {
    m.Keys == Elems(order) && stamp.Keys == m.Keys && Chain(order, stamp, dir) && StampsBefore(stamp, clock)
  }

  /** The order tracks the map, so the two have the same size. */
  lemma StampedTracks<K, V>(order: seq<K>, m: map<K, V>, stamp: map<K, nat>, clock: nat, dir: Direction)
    requires Stamped(order, m, stamp, clock, dir)
    ensures Tracks(order, m) && |m| == |order|
  {
    ChainNoDup(order, stamp, dir);
    TracksSize(order, m);
  }

  /** A key is in the order exactly when it is in the map. */
  lemma StampedHas<K, V>(order: seq<K>, m: map<K, V>, stamp: map<K, nat>, clock: nat, dir: Direction, k: K)
    requires Stamped(order, m, stamp, clock, dir)
    ensures k in order <==> k in m
  {
    ElemsIn(order, k);
  }

  /** Oldest first: the front key has the oldest stamp of all present keys. */
  lemma StampedFirstIsOldest<K, V>(order: seq<K>, m: map<K, V>, stamp: map<K, nat>, clock: nat)
    requires Stamped(order, m, stamp, clock, OldestFirst) && |order| > 0
    ensures order[0] in m
    ensures forall x :: x in m ==> stamp[order[0]] <= stamp[x]
  {
    ElemsIn(order, order[0]);
    forall x | x in m ensures stamp[order[0]] <= stamp[x] {
      ElemsIn(order, x);
      var j :| 0 <= j < |order| && order[j] == x;
      if j > 0 {
        ChainPair(order, stamp, OldestFirst, 0, j);
      }
    }
  }

  /** Oldest first: the last key has the newest stamp of all present keys. */
  lemma StampedLastIsNewest<K, V>(order: seq<K>, m: map<K, V>, stamp: map<K, nat>, clock: nat)
    requires Stamped(order, m, stamp, clock, OldestFirst) && |order| > 0
    ensures order[|order| - 1] in m
    ensures forall x :: x in m ==> stamp[x] <= stamp[order[|order| - 1]]
  {
    var n := |order| - 1;
    ElemsIn(order, order[n]);
    forall x | x in m ensures stamp[x] <= stamp[order[n]] {
      ElemsIn(order, x);
      var j :| 0 <= j < |order| && order[j] == x;
      if j < n {
        ChainPair(order, stamp, OldestFirst, j, n);
      }
    }
  }

  /** Newest first: the front key has the newest stamp of all present keys. */
  lemma StampedFirstIsNewest<K, V>(order: seq<K>, m: map<K, V>, stamp: map<K, nat>, clock: nat)
    requires Stamped(order, m, stamp, clock, NewestFirst) && |order| > 0
    ensures order[0] in m
    ensures forall x :: x in m ==> stamp[x] <= stamp[order[0]]
  {
    ElemsIn(order, order[0]);
    forall x | x in m ensures stamp[x] <= stamp[order[0]] {
      ElemsIn(order, x);
      var j :| 0 <= j < |order| && order[j] == x;
      if j > 0 {
        ChainPair(order, stamp, NewestFirst, 0, j);
      }
    }
  }

  /** A present key gets a new value and keeps its place and stamp. */
  lemma StampedAssign<K, V>(order: seq<K>, m: map<K, V>, stamp: map<K, nat>, clock: nat, dir: Direction, k: K, v: V)
    requires Stamped(order, m, stamp, clock, dir) && k in m
    ensures Stamped(order, m[k := v], stamp, clock, dir)
  {
  }

  /** Oldest first: a new key stamped `clock` joins at the end. */
  lemma StampedAppend<K, V>(order: seq<K>, m: map<K, V>, stamp: map<K, nat>, clock: nat, k: K, v: V)
    requires Stamped(order, m, stamp, clock, OldestFirst) && k !in m
    ensures Stamped(order + [k], m[k := v], stamp[k := clock], clock + 1, OldestFirst)
  {
    ElemsIn(order, k);
    ChainUpdate(order, stamp, OldestFirst, k, clock);
    if |order| > 0 {
      ElemsIn(order, order[|order| - 1]);
    }
    ChainSnoc(order, stamp[k := clock], OldestFirst, k);
    assert (order + [k])[..|order|] == order;
  }

  /** Newest first: a new key stamped `clock` joins at the front. */
  lemma StampedPrepend<K, V>(order: seq<K>, m: map<K, V>, stamp: map<K, nat>, clock: nat, k: K, v: V)
    requires Stamped(order, m, stamp, clock, NewestFirst) && k !in m
    ensures Stamped([k] + order, m[k := v], stamp[k := clock], clock + 1, NewestFirst)
  {
    ElemsIn(order, k);
    ChainUpdate(order, stamp, NewestFirst, k, clock);
    if |order| > 0 {
      ElemsIn(order, order[0]);
    }
    ChainCons(order, stamp[k := clock], NewestFirst, k);
    ElemsConcat([k], order);
    assert Elems([k]) == {k} by {
      assert [k][..0] == [];
    }
  }

  /** A key leaves the order, the map and the stamps. */
  lemma StampedRemove<K, V>(order: seq<K>, m: map<K, V>, stamp: map<K, nat>, clock: nat, dir: Direction, k: K)
    requires Stamped(order, m, stamp, clock, dir)
    ensures Stamped(Remove(order, k), m - {k}, stamp - {k}, clock, dir)
  {
    ChainNoDup(order, stamp, dir);
    RemoveElems(order, k);
    RemoveIn(order, k, k);
    ChainRemove(order, stamp, dir, k);
    ChainDelete(Remove(order, k), stamp, dir, k);
  }

  /** The front key leaves. */
  lemma StampedDropFirst<K, V>(order: seq<K>, m: map<K, V>, stamp: map<K, nat>, clock: nat, dir: Direction)
    requires Stamped(order, m, stamp, clock, dir) && |order| > 0
    ensures Stamped(order[1..], m - {order[0]}, stamp - {order[0]}, clock, dir)
  {
    StampedRemove(order, m, stamp, clock, dir, order[0]);
  }

  /** The last key leaves. */
  lemma StampedDropLast<K, V>(order: seq<K>, m: map<K, V>, stamp: map<K, nat>, clock: nat, dir: Direction)
    requires Stamped(order, m, stamp, clock, dir) && |order| > 0
    ensures Stamped(order[..|order| - 1], m - {order[|order| - 1]}, stamp - {order[|order| - 1]}, clock, dir)
  {
    var init, last := order[..|order| - 1], order[|order| - 1];
    ChainNoDup(order, stamp, dir);
    assert last !in init by {
      forall i | 0 <= i < |init| ensures init[i] != last {
        assert init[i] == order[i];
      }
    }
    ElemsIn(init, last);
    ChainDropLast(order, stamp, dir);
    ChainDelete(init, stamp, dir, last);
  }

  /** Oldest first: a present key is stamped `clock` and moved to the end. */
  lemma StampedMoveToEnd<K, V>(order: seq<K>, m: map<K, V>, stamp: map<K, nat>, clock: nat, k: K)
    requires Stamped(order, m, stamp, clock, OldestFirst) && k in order
    ensures Stamped(MoveToEnd(order, k), m, stamp[k := clock], clock + 1, OldestFirst)
  {
    StampedHas(order, m, stamp, clock, OldestFirst, k);
    var r := Remove(order, k);
    StampedRemove(order, m, stamp, clock, OldestFirst, k);
    StampedAppend(r, m - {k}, stamp - {k}, clock, k, m[k]);
    assert (m - {k})[k := m[k]] == m;
    assert (stamp - {k})[k := clock] == stamp[k := clock];
  }

  /** Newest first: a present key is stamped `clock` and moved to the front. */
  lemma StampedMoveToFront<K, V>(order: seq<K>, m: map<K, V>, stamp: map<K, nat>, clock: nat, k: K)
    requires Stamped(order, m, stamp, clock, NewestFirst) && k in order
    ensures Stamped(MoveToFront(order, k), m, stamp[k := clock], clock + 1, NewestFirst)
  {
    StampedHas(order, m, stamp, clock, NewestFirst, k);
    var r := Remove(order, k);
    StampedRemove(order, m, stamp, clock, NewestFirst, k);
    StampedPrepend(r, m - {k}, stamp - {k}, clock, k, m[k]);
    assert (m - {k})[k := m[k]] == m;
    assert (stamp - {k})[k := clock] == stamp[k := clock];
  }
}
