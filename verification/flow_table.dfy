/** Bidirectional flow lookup, common to every generation of the engine: a flow
    is stored once, under the 4-tuple of the packet that created it, and a
    later packet finds it either under its own key (direction up) or under
    the reverse of its key (direction down). */
module FlowTable {

  datatype Direction = Up | Down

  /** Where a packet's flow lives in the table and which side the packet is on.
      `created` is set when no flow exists yet in either orientation. */
  datatype Slot<K> = Slot(key: K, dir: Direction, created: bool)

  /** capture.go:112-128: forward key first, then the reverse key, else a new
      flow registered under the forward key. */
  function Locate<K(==), F>(m: map<K, F>, k: K, rk: K): (r: Slot<K>)
    ensures r.dir == Up <==> (k in m || rk !in m)
    ensures r.key == (if r.dir == Up then k else rk)
    ensures r.created <==> (k !in m && rk !in m)
    ensures !r.created ==> r.key in m
  {
    if k in m then Slot(k, Up, false)
    else if rk in m then Slot(rk, Down, false)
    else Slot(k, Up, true)
  }

  /** The table never holds a key together with its distinct reverse. */
  ghost predicate NoReversePair<K, F>(m: map<K, F>, rev: K -> K) {
    forall k :: k in m && rev(k) != k ==> rev(k) !in m
  }

  ghost predicate Involution<K(!new)>(rev: K -> K) {
    forall k :: rev(rev(k)) == k
  }

  /** Storing a packet's flow where `Locate` puts it keeps the table free of
      key/reverse pairs. */
  lemma {:induction false} StoreKeepsNoReversePair<K(!new), F>(m: map<K, F>, k: K, rev: K -> K, v: F)
    requires NoReversePair(m, rev)
    requires Involution(rev)
    ensures NoReversePair(m[Locate(m, k, rev(k)).key := v], rev)
  {
    var slot := Locate(m, k, rev(k));
    var m' := m[slot.key := v];
    if slot.created {
      forall x | x in m' && rev(x) != x
        ensures rev(x) !in m'
      {
        if x == k {
          assert rev(k) !in m;
        } else {
          assert x in m;
          assert rev(x) !in m;
          assert rev(rev(x)) == x;
        }
      }
    } else {
      assert m'.Keys == m.Keys;
    }
  }

  /** After a flow is created for key `k`, a packet with the same key is on the
      up side and a packet with the reverse key is on the down side of that
      same entry. */
  lemma {:induction false} OrientationAfterCreate<K, F>(m: map<K, F>, k: K, rk: K, v: F)
    requires Locate(m, k, rk).created
    requires k != rk
    ensures Locate(m[k := v], k, rk) == Slot(k, Up, false)
    ensures Locate(m[k := v], rk, k) == Slot(k, Down, false)
  {
    assert k !in m && rk !in m;
  }

  /** The table invariant every engine keeps: no key together with its
      distinct reverse, each flow stored under the key its own endpoints
      make, and creation indices in `0 .. n - 1`, distinct. `ends` reads the
      endpoints off a key, `fends` off a flow, `index` a flow's creation index. */
  ghost predicate TableOK<K, F, E>(m: map<K, F>, rev: K -> K, ends: K -> E, fends: F -> E, index: F -> int, n: int) {
    && NoReversePair(m, rev)
    && (forall k :: k in m ==> fends(m[k]) == ends(k) && 0 <= index(m[k]) < n)
    && (forall k, k' :: k in m && k' in m && k != k' ==> index(m[k]) != index(m[k']))
  }

  /** No flow of one table shares its index with a flow of the other. */
  ghost predicate Apart<K, L, F, G>(m: map<K, F>, o: map<L, G>, index: F -> int, oindex: G -> int) {
    forall k, l :: k in m && l in o ==> index(m[k]) != oindex(o[l])
  }

  /** The flow a packet with key `k` works on: the stored one, or `newFlow` when
      `Locate` creates a new entry. */
  function Current<K(==), F>(m: map<K, F>, k: K, rk: K, newFlow: F): (f: F)
    ensures Locate(m, k, rk).created ==> f == newFlow
    ensures !Locate(m, k, rk).created ==> f == m[Locate(m, k, rk).key]
  {
    var slot := Locate(m, k, rk);
    if slot.created then newFlow else m[slot.key]
  }

  /** Writing back the flow a packet worked on, where `Locate` puts it, keeps the
      table invariant; a creation uses index `n` and the table grows by one,
      otherwise the table keeps its size. `newFlow` carries the packet's own
      endpoints and the next index; the update keeps the flow's identity. */
  lemma {:induction false} PlaceKeepsTable<K(!new), F, E>(
    m: map<K, F>, k: K, rev: K -> K, ends: K -> E, fends: F -> E, index: F -> int,
    n: nat, newFlow: F, f': F)
    requires TableOK(m, rev, ends, fends, index, n) && Involution(rev)
    requires fends(newFlow) == ends(k) && index(newFlow) == n
    requires fends(f') == fends(Current(m, k, rev(k), newFlow))
    requires index(f') == index(Current(m, k, rev(k), newFlow))
    ensures var slot := Locate(m, k, rev(k));
            && TableOK(m[slot.key := f'], rev, ends, fends, index, if slot.created then n + 1 else n)
            && |m[slot.key := f']| == if slot.created then |m| + 1 else |m|
  {
    var slot := Locate(m, k, rev(k));
    var m' := m[slot.key := f'];
    StoreKeepsNoReversePair(m, k, rev, f');
    if slot.created {
      assert slot.key == k && k !in m;
      assert Current(m, k, rev(k), newFlow) == newFlow;
      forall x | x in m'
        ensures fends(m'[x]) == ends(x) && 0 <= index(m'[x]) < n + 1
      {
        if x == k {
          assert m'[x] == f';
          assert fends(f') == fends(newFlow) && index(f') == n;
        } else {
          assert x in m && m'[x] == m[x];
        }
      }
      forall x, y | x in m' && y in m' && x != y
        ensures index(m'[x]) != index(m'[y])
      {
        if x == k {
          assert index(m'[y]) < n;
        } else if y == k {
          assert index(m'[x]) < n;
        }
      }
    } else {
      assert m'.Keys == m.Keys;
    }
  }

  /** Two tables stay apart when one of them gets a flow with a newFlow index
      `n` above all indices of the other, or keeps the index it had. */
  lemma {:induction false} PlaceKeepsApart<K(!new), L, F, G>(
    m: map<K, F>, o: map<L, G>, index: F -> int, oindex: G -> int,
    k: K, rev: K -> K, n: int, newFlow: F, f': F)
    requires Apart(m, o, index, oindex)
    requires forall l :: l in o ==> oindex(o[l]) < n
    requires index(newFlow) == n
    requires index(f') == index(Current(m, k, rev(k), newFlow))
    ensures Apart(m[Locate(m, k, rev(k)).key := f'], o, index, oindex)
  {
    var slot := Locate(m, k, rev(k));
    var m' := m[slot.key := f'];
    forall x, l | x in m' && l in o
      ensures index(m'[x]) != oindex(o[l])
    {
      if x != slot.key {
        assert x in m;
      }
    }
  }

  /** Raising the bound on the creation indices keeps the table invariant. */
  lemma TableOKWiden<K, F, E>(m: map<K, F>, rev: K -> K, ends: K -> E, fends: F -> E, index: F -> int, n: int, n': int)
    requires TableOK(m, rev, ends, fends, index, n) && n <= n'
    ensures TableOK(m, rev, ends, fends, index, n')
  {
  }

  /** `Apart` does not depend on the order of the two tables. */
  lemma ApartSymmetric<K, L, F, G>(m: map<K, F>, o: map<L, G>, index: F -> int, oindex: G -> int)
    ensures Apart(m, o, index, oindex) <==> Apart(o, m, oindex, index)
  {
  }
}
