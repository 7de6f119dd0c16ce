/** Database tables modelled as finite maps from numeric ids to rows.

    A relational query without an explicit ordering returns rows in primary-key order here:
    `FirstKey` is `findFirst`, `Rows` is `findMany`. */
module Tables {
  import opened Wrappers

  /** Primary keys. Every table draws fresh keys from one shared counter. */
  type Id = nat

  /** Every key of `m` is below `bound`, the next id to be handed out. */
  ghost predicate KeysBelow<V>(m: map<Id, V>, bound: nat) {
    forall k :: k in m ==> k < bound
  }

  /** The first key in [from, bound) whose row satisfies `p`. */
  function FirstKey<V>(m: map<Id, V>, p: V -> bool, from: nat, bound: nat): (r: Option<Id>)
    decreases bound - from
    ensures r.Some? ==> from <= r.value < bound && r.value in m && p(m[r.value])
    ensures r.Some? ==> forall k :: from <= k < r.value && k in m ==> !p(m[k])
    ensures r.None? ==> forall k :: from <= k < bound && k in m ==> !p(m[k])
  {
    if from >= bound then None
    else if from in m && p(m[from]) then Some(from)
    else FirstKey(m, p, from + 1, bound)
  }

  /** The rows of `m` with keys in [from, bound), in increasing key order. */
  function Rows<V>(m: map<Id, V>, from: nat, bound: nat): seq<(Id, V)>
    decreases bound - from
  {
    if from >= bound then []
    else if from in m then [(from, m[from])] + Rows(m, from + 1, bound)
    else Rows(m, from + 1, bound)
  }

  /** The elements of `s` that satisfy `p`, in their order in `s` (a `where` clause). */
  function Filter<T>(s: seq<T>, p: T -> bool): seq<T> {
    if s == [] then []
    else (if p(s[0]) then [s[0]] else []) + Filter(s[1..], p)
  }

  /** A row is listed exactly when its key is in range and it is in the table. */
  lemma {:induction false} RowsMembership<V>(m: map<Id, V>, from: nat, bound: nat, k: Id, v: V)
    decreases bound - from
    ensures (k, v) in Rows(m, from, bound) <==> from <= k < bound && k in m && m[k] == v
  {
    if from < bound {
      RowsMembership(m, from + 1, bound, k, v);
    }
  }

  /** Listing a whole table yields exactly its rows. */
  lemma RowsOfTable<V>(m: map<Id, V>, bound: nat)
    requires KeysBelow(m, bound)
    ensures forall k, v :: (k, v) in Rows(m, 0, bound) <==> k in m && m[k] == v
  {
    forall k, v ensures (k, v) in Rows(m, 0, bound) <==> k in m && m[k] == v {
      RowsMembership(m, 0, bound, k, v);
    }
  }

  /** Keys are listed in increasing order, so no row is listed twice. */
  lemma {:induction false} RowsIncreasing<V>(m: map<Id, V>, from: nat, bound: nat)
    decreases bound - from
    ensures forall i, j :: 0 <= i < j < |Rows(m, from, bound)| ==>
      Rows(m, from, bound)[i].0 < Rows(m, from, bound)[j].0
  {
    if from < bound {
      RowsIncreasing(m, from + 1, bound);
      var rest := Rows(m, from + 1, bound);
      forall i | 0 <= i < |rest| ensures rest[i].0 > from {
        RowsMembership(m, from + 1, bound, rest[i].0, rest[i].1);
      }
    }
  }

  /** `Filter` keeps exactly the elements that satisfy `p`. */
  lemma {:induction false} FilterMembership<T>(s: seq<T>, p: T -> bool, x: T)
    ensures x in Filter(s, p) <==> x in s && p(x)
  {
    if s != [] {
      FilterMembership(s[1..], p, x);
      assert s == [s[0]] + s[1..];
    }
  }

  /** Filtering rows listed in increasing key order keeps that order, so no row is kept twice. */
  lemma {:induction false} FilterIncreasing<V>(s: seq<(Id, V)>, p: ((Id, V)) -> bool)
    requires forall i, j :: 0 <= i < j < |s| ==> s[i].0 < s[j].0
    ensures forall i, j :: 0 <= i < j < |Filter(s, p)| ==> Filter(s, p)[i].0 < Filter(s, p)[j].0
  {
    if s != [] {
      var rest := Filter(s[1..], p);
      FilterIncreasing(s[1..], p);
      forall i | 0 <= i < |rest| ensures rest[i].0 > s[0].0 {
        FilterMembership(s[1..], p, rest[i]);
        var j :| 0 <= j < |s[1..]| && s[1..][j] == rest[i];
        assert s[j + 1] == rest[i];
      }
    }
  }

  /** Every element `Filter` keeps satisfies `p`. */
  lemma {:induction false} FilterAll<T>(s: seq<T>, p: T -> bool)
    ensures forall i :: 0 <= i < |Filter(s, p)| ==> p(Filter(s, p)[i])
  {
    if s != [] {
      FilterAll(s[1..], p);
    }
  }

  /** Nothing is kept when no element satisfies `p`. */
  lemma {:induction false} FilterNone<T>(s: seq<T>, p: T -> bool)
    requires forall i :: 0 <= i < |s| ==> !p(s[i])
    ensures Filter(s, p) == []
  {
    if s != [] {
      FilterNone(s[1..], p);
    }
  }
}
