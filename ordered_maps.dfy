/**
 * A JavaScript plain object seen as a dictionary: a sequence of (key, value) entries in
 * insertion order. Assigning to a key that is already present replaces its value in place;
 * assigning to a new key appends it. Lodash's `_.mapKeys`, the spread `{...a, ...b}` and a
 * run of `obj[k] = v` statements are all folds of that one assignment.
 */
module OrderedMaps {
  import opened Wrappers

  ghost function KeySet<V>(m: seq<(string, V)>): set<string> {
    set i | 0 <= i < |m| :: m[i].0
  }

  ghost predicate UniqueKeys<V>(m: seq<(string, V)>) {
    forall i, j :: 0 <= i < j < |m| ==> m[i].0 != m[j].0
  }

  lemma UniqueKeysAppend<V>(a: seq<(string, V)>, b: seq<(string, V)>)
    requires UniqueKeys(a) && UniqueKeys(b)
    requires forall i, j :: 0 <= i < |a| && 0 <= j < |b| ==> a[i].0 != b[j].0
    ensures UniqueKeys(a + b)
  {
  }

  /** Position of key `k` in `m`: the first entry that carries it. */
  function IndexOf<V>(m: seq<(string, V)>, k: string): (r: Option<nat>)
    ensures r.None? <==> k !in KeySet(m)
    ensures r.Some? ==> r.value < |m| && m[r.value].0 == k
    ensures r.Some? ==> forall j :: 0 <= j < r.value ==> m[j].0 != k
    decreases |m|
  {
    if m == [] then None
    else if m[0].0 == k then Some(0)
    else
      assert KeySet(m) == {m[0].0} + KeySet(m[1..]);
      match IndexOf(m[1..], k)
      case None => None
      case Some(i) => Some(i + 1)
  }

  /** `obj[k]`: the value stored under `k`, or `undefined`. */
  function Get<V>(m: seq<(string, V)>, k: string): (r: Option<V>)
    ensures r.None? <==> k !in KeySet(m)
    ensures r.Some? ==> (k, r.value) in m
    ensures UniqueKeys(m) ==> forall i :: 0 <= i < |m| && m[i].0 == k ==> r == Some(m[i].1)
  {
    match IndexOf(m, k)
    case None => None
    case Some(i) => Some(m[i].1)
  }

  /** `obj[k] = v`. */
  function Put<V>(m: seq<(string, V)>, k: string, v: V): (r: seq<(string, V)>)
    ensures |r| == if k in KeySet(m) then |m| else |m| + 1
    ensures forall i :: 0 <= i < |m| ==> r[i].0 == m[i].0
    ensures k !in KeySet(m) ==> r == m + [(k, v)]
    ensures KeySet(r) == KeySet(m) + {k}
    ensures UniqueKeys(m) ==> UniqueKeys(r)
  {
    match IndexOf(m, k)
    case None =>
      assert KeySet(m + [(k, v)]) == KeySet(m) + {k} by {
        assert (m + [(k, v)])[|m|].0 == k;
        forall x | x in KeySet(m) ensures x in KeySet(m + [(k, v)]) {
          var j :| 0 <= j < |m| && m[j].0 == x;
          assert (m + [(k, v)])[j].0 == x;
        }
      }
      m + [(k, v)]
    case Some(i) =>
      var r := m[i := (k, v)];
      assert KeySet(r) == KeySet(m) by {
        forall x | x in KeySet(m) ensures x in KeySet(r) {
          var j :| 0 <= j < |m| && m[j].0 == x;
          assert r[j].0 == x;
        }
      }
      r
  }

  /** Reading back: the assigned key holds the assigned value, every other key is untouched. */
  lemma GetPut<V>(m: seq<(string, V)>, k: string, v: V, k': string)
    ensures Get(Put(m, k, v), k') == if k' == k then Some(v) else Get(m, k')
  {
    var r := Put(m, k, v);
    if k' == k {
      if k in KeySet(m) {
        assert IndexOf(r, k) == IndexOf(m, k);
      } else {
        assert IndexOf(r, k) == Some(|m|);
      }
    } else {
      assert IndexOf(r, k') == IndexOf(m, k');
    }
  }

  /** The value of the LAST entry of `s` whose key is `k`: the one a left-to-right run of
      assignments leaves behind. */
  function LastValue<V>(s: seq<(string, V)>, k: string): (r: Option<V>)
    ensures r.None? <==> k !in KeySet(s)
    ensures r.Some? ==> exists i :: 0 <= i < |s| && s[i] == (k, r.value)
                           && forall j :: i < j < |s| ==> s[j].0 != k
    decreases |s|
  {
    if s == [] then None
    else
      var n := |s| - 1;
      assert KeySet(s) == KeySet(s[..n]) + {s[n].0};
      if s[n].0 == k then Some(s[n].1)
      else LastValue(s[..n], k)
  }

  /** Assign every entry of `s`, left to right, onto `m`. */
  function PutAll<V>(m: seq<(string, V)>, s: seq<(string, V)>): (r: seq<(string, V)>)
    ensures KeySet(r) == KeySet(m) + KeySet(s)
    ensures UniqueKeys(m) ==> UniqueKeys(r)
    ensures |m| <= |r| <= |m| + |s|
    ensures forall i :: 0 <= i < |m| ==> r[i].0 == m[i].0
    decreases |s|
  {
    if s == [] then m
    else
      var n := |s| - 1;
      assert KeySet(s) == KeySet(s[..n]) + {s[n].0};
      Put(PutAll(m, s[..n]), s[n].0, s[n].1)
  }

  /** Every entry of `PutAll(m, s)` is an entry of `m` or of `s`: assignment invents nothing. */
  lemma {:induction false} PutAllEntriesFrom<V>(m: seq<(string, V)>, s: seq<(string, V)>)
    ensures forall j :: 0 <= j < |PutAll(m, s)| ==> PutAll(m, s)[j] in m || PutAll(m, s)[j] in s
    decreases |s|
  {
    if s != [] {
      var n := |s| - 1;
      PutAllEntriesFrom(m, s[..n]);
      var a := PutAll(m, s[..n]);
      var r := Put(a, s[n].0, s[n].1);
      forall j | 0 <= j < |r| ensures r[j] in m || r[j] in s {
        if j < |a| && r[j] == a[j] {
          assert a[j] in m || a[j] in s[..n];
        } else if j < |a| {
          assert r[j] == s[n];
        } else {
          assert r == a + [s[n]];
        }
      }
    }
  }

  /** Later assignments win: after `PutAll(m, s)` a key holds its last value in `s`, or its
      old value in `m` when `s` never assigns it. */
  lemma {:induction false} GetPutAll<V>(m: seq<(string, V)>, s: seq<(string, V)>, k: string)
    ensures Get(PutAll(m, s), k) == if k in KeySet(s) then LastValue(s, k) else Get(m, k)
    decreases |s|
  {
    if s != [] {
      var n := |s| - 1;
      assert KeySet(s) == KeySet(s[..n]) + {s[n].0};
      GetPutAll(m, s[..n], k);
      GetPut(PutAll(m, s[..n]), s[n].0, s[n].1, k);
    }
  }

  /** Assigning keys that are all new, and pairwise distinct, just appends them in order. */
  lemma {:induction false} PutAllFresh<V>(m: seq<(string, V)>, s: seq<(string, V)>)
    requires UniqueKeys(m + s)
    ensures PutAll(m, s) == m + s
    decreases |s|
  {
    if s != [] {
      var n := |s| - 1;
      assert m + s == (m + s[..n]) + [s[n]];
      assert UniqueKeys(m + s[..n]) by {
        forall i, j | 0 <= i < j < |m + s[..n]| ensures (m + s[..n])[i].0 != (m + s[..n])[j].0 {
          assert (m + s[..n])[i] == (m + s)[i] && (m + s[..n])[j] == (m + s)[j];
        }
      }
      PutAllFresh(m, s[..n]);
      forall i | 0 <= i < |m + s[..n]| ensures (m + s[..n])[i].0 != s[n].0 {
        assert (m + s[..n])[i] == (m + s)[i] && s[n] == (m + s)[|m| + n];
      }
      assert s[n].0 !in KeySet(m + s[..n]);
    }
  }

  /** Assigning pairwise distinct keys onto an empty object yields exactly those entries. */
  lemma PutAllOntoEmpty<V>(s: seq<(string, V)>)
    requires UniqueKeys(s)
    ensures PutAll([], s) == s
  {
    assert [] + s == s;
    PutAllFresh([], s);
  }

  /** The same entries with every value passed through `f` (lodash's `_.mapValues`). */
  function MapValues<V, W>(f: V -> W, m: seq<(string, V)>): (r: seq<(string, W)>)
    ensures |r| == |m|
    ensures forall i :: 0 <= i < |m| ==> r[i] == (m[i].0, f(m[i].1))
  {
    seq(|m|, i requires 0 <= i < |m| => (m[i].0, f(m[i].1)))
  }

  lemma {:induction false} IndexOfMapValues<V, W>(f: V -> W, m: seq<(string, V)>, k: string)
    ensures IndexOf(MapValues(f, m), k) == IndexOf(m, k)
    decreases |m|
  {
    if m != [] {
      assert MapValues(f, m)[1..] == MapValues(f, m[1..]);
      IndexOfMapValues(f, m[1..], k);
    }
  }

  lemma MapValuesPut<V, W>(f: V -> W, m: seq<(string, V)>, k: string, v: V)
    ensures MapValues(f, Put(m, k, v)) == Put(MapValues(f, m), k, f(v))
  {
    IndexOfMapValues(f, m, k);
  }

  /** Renaming keys then transforming values is the same as transforming values first:
      assignment only decides WHERE a value ends up, never what it is. */
  lemma {:induction false} PutAllMapValues<V, W>(f: V -> W, m: seq<(string, V)>, s: seq<(string, V)>)
    ensures MapValues(f, PutAll(m, s)) == PutAll(MapValues(f, m), MapValues(f, s))
    decreases |s|
  {
    if s != [] {
      var n := |s| - 1;
      assert MapValues(f, s)[..n] == MapValues(f, s[..n]);
      PutAllMapValues(f, m, s[..n]);
      MapValuesPut(f, PutAll(m, s[..n]), s[n].0, s[n].1);
    }
  }
}
