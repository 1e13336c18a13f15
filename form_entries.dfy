/**
 * The name/value entry lists of the browser's `FormData` and `URLSearchParams`
 * objects, as the contact form uses them to assemble its request body.
 * Only the operations the form calls are modelled: `set` (replace the first
 * entry with that name, drop the later ones, or append), and the copy of
 * every entry, in order, into a `URLSearchParams` with `append`.
 */
module FormEntries {
  import opened Wrappers

  datatype Entry = Entry(key: string, value: string)

  /** Number of entries named `k`. */
  function Count(d: seq<Entry>, k: string): nat
  {
    if d == [] then 0 else (if d[0].key == k then 1 else 0) + Count(d[1..], k)
  }

  /** The value of the first entry named `k` (what `FormData.get` answers). */
  function Get(d: seq<Entry>, k: string): Option<string>
  {
    if d == [] then None
    else if d[0].key == k then Some(d[0].value)
    else Get(d[1..], k)
  }

  /** The entries not named `k`, in their order. */
  function Without(d: seq<Entry>, k: string): (r: seq<Entry>)
    ensures Count(r, k) == 0
    ensures |r| == |d| - Count(d, k)
  {
    if d == [] then []
    else if d[0].key == k then Without(d[1..], k)
    else [d[0]] + Without(d[1..], k)
  }

  /** Position of the first entry named `k`. */
  function FirstIndex(d: seq<Entry>, k: string): (i: nat)
    requires Count(d, k) > 0
    ensures i < |d| && d[i].key == k
    ensures Count(d[..i], k) == 0
  {
    if d[0].key == k then 0
    else
      var i := 1 + FirstIndex(d[1..], k);
      assert d[..i] == [d[0]] + d[1..][..i - 1];
      i
  }

  lemma {:induction false} WithoutNoKey(d: seq<Entry>, k: string)
    requires Count(d, k) == 0
    ensures Without(d, k) == d
  {
    if d != [] {
      WithoutNoKey(d[1..], k);
    }
  }

  /**
   * `FormData.set(k, v)`: if entries named `k` exist, the first is replaced by
   * (k, v) and the others are removed; otherwise (k, v) is appended.
   */
  function Set(d: seq<Entry>, k: string, v: string): seq<Entry>
  {
    if d == [] then [Entry(k, v)]
    else if d[0].key == k then [Entry(k, v)] + Without(d[1..], k)
    else [d[0]] + Set(d[1..], k, v)
  }

  /**
   * After `set(k, v)` exactly one entry is named `k`, with value `v`, and the
   * entries of every other name are unchanged, in order.
   */
  lemma {:induction false} SetSpec(d: seq<Entry>, k: string, v: string)
    ensures Count(Set(d, k, v), k) == 1
    ensures Get(Set(d, k, v), k) == Some(v)
    ensures Without(Set(d, k, v), k) == Without(d, k)
  {
    var r := Set(d, k, v);
    if d == [] {
    } else if d[0].key == k {
      var rest := Without(d[1..], k);
      WithoutNoKey(rest, k);
      assert r[1..] == rest;
    } else {
      SetSpec(d[1..], k, v);
      assert r[1..] == Set(d[1..], k, v);
    }
  }

  /** Where `set` puts the entry when no entry had that name: at the end. */
  lemma {:induction false} SetAppends(d: seq<Entry>, k: string, v: string)
    requires Count(d, k) == 0
    ensures Set(d, k, v) == d + [Entry(k, v)]
  {
    if d != [] {
      SetAppends(d[1..], k, v);
      assert d == [d[0]] + d[1..];
    }
  }

  /**
   * Where `set` puts the entry when one had that name: in place of the first
   * one, with everything before it kept.
   */
  lemma {:induction false} SetReplacesFirst(d: seq<Entry>, k: string, v: string)
    requires Count(d, k) > 0
    ensures var i := FirstIndex(d, k);
      i < |Set(d, k, v)| && Set(d, k, v)[..i] == d[..i] && Set(d, k, v)[i] == Entry(k, v)
  {
    if d[0].key != k {
      SetReplacesFirst(d[1..], k, v);
      var tail := Set(d[1..], k, v);
      var i := FirstIndex(d[1..], k);
      assert Set(d, k, v) == [d[0]] + tail;
      assert FirstIndex(d, k) == i + 1;
      assert ([d[0]] + tail)[..i + 1] == [d[0]] + tail[..i];
      assert d[..i + 1] == [d[0]] + d[1..][..i];
    }
  }

  /** The successive `set` calls `ups[0]`, `ups[1]`, ... applied to `d`. */
  function SetAll(d: seq<Entry>, ups: seq<Entry>): seq<Entry>
    decreases |ups|
  {
    if ups == [] then d else SetAll(Set(d, ups[0].key, ups[0].value), ups[1..])
  }

  /** No two updates name the same key. */
  predicate DistinctKeys(ups: seq<Entry>)
  {
    forall i, j :: 0 <= i < j < |ups| ==> ups[i].key != ups[j].key
  }

  lemma {:induction false} CountWithoutOther(d: seq<Entry>, k: string, other: string)
    requires k != other
    ensures Count(Without(d, other), k) == Count(d, k)
    ensures Get(Without(d, other), k) == Get(d, k)
  {
    if d != [] {
      CountWithoutOther(d[1..], k, other);
      if d[0].key != other {
        assert ([d[0]] + Without(d[1..], other))[1..] == Without(d[1..], other);
      }
    }
  }

  /** Setting one key leaves the entries of every other key as they were. */
  lemma SetOtherKey(d: seq<Entry>, other: string, v: string, k: string)
    requires k != other
    ensures Count(Set(d, other, v), k) == Count(d, k)
    ensures Get(Set(d, other, v), k) == Get(d, k)
  {
    var r := Set(d, other, v);
    SetSpec(d, other, v);
    CountWithoutOther(r, k, other);
    CountWithoutOther(d, k, other);
  }

  /**
   * After the successive `set`s of distinct keys, each key set holds exactly
   * one entry, with the value it was set to; every other key keeps its
   * entries from `d`.
   */
  lemma {:induction false} SetAllContents(d: seq<Entry>, ups: seq<Entry>)
    requires DistinctKeys(ups)
    ensures forall j :: 0 <= j < |ups| ==>
      Count(SetAll(d, ups), ups[j].key) == 1 && Get(SetAll(d, ups), ups[j].key) == Some(ups[j].value)
    ensures forall k :: (forall j :: 0 <= j < |ups| ==> ups[j].key != k) ==>
      Count(SetAll(d, ups), k) == Count(d, k) && Get(SetAll(d, ups), k) == Get(d, k)
    decreases |ups|
  {
    if ups != [] {
      var d1 := Set(d, ups[0].key, ups[0].value);
      var rest := ups[1..];
      assert DistinctKeys(rest) by {
        forall i, j | 0 <= i < j < |rest| ensures rest[i].key != rest[j].key {
          assert rest[i] == ups[i + 1] && rest[j] == ups[j + 1];
        }
      }
      SetAllContents(d1, rest);
      SetSpec(d, ups[0].key, ups[0].value);
      assert SetAll(d, ups) == SetAll(d1, rest);
      forall j | 0 <= j < |ups|
        ensures Count(SetAll(d, ups), ups[j].key) == 1 && Get(SetAll(d, ups), ups[j].key) == Some(ups[j].value)
      {
        if j == 0 {
          forall m | 0 <= m < |rest| ensures rest[m].key != ups[0].key {
            assert rest[m] == ups[m + 1];
          }
        } else {
          assert ups[j] == rest[j - 1];
        }
      }
      forall k | (forall j :: 0 <= j < |ups| ==> ups[j].key != k)
        ensures Count(SetAll(d, ups), k) == Count(d, k) && Get(SetAll(d, ups), k) == Get(d, k)
      {
        assert ups[0].key != k;
        SetOtherKey(d, ups[0].key, ups[0].value, k);
        forall m | 0 <= m < |rest| ensures rest[m].key != k {
          assert rest[m] == ups[m + 1];
        }
      }
    }
  }

  /** The entries named `k`, in their order (what `FormData.getAll` sees). */
  function Only(d: seq<Entry>, k: string): seq<Entry>
  {
    if d == [] then []
    else (if d[0].key == k then [d[0]] else []) + Only(d[1..], k)
  }

  lemma OnlyCons(e: Entry, t: seq<Entry>, k: string)
    ensures Only([e] + t, k) == (if e.key == k then [e] else []) + Only(t, k)
  {
    assert ([e] + t)[1..] == t;
  }

  /** Dropping the entries of one name keeps the entries of every other name, in order. */
  lemma {:induction false} OnlyWithout(d: seq<Entry>, other: string, k: string)
    requires k != other
    ensures Only(Without(d, other), k) == Only(d, k)
  {
    if d != [] {
      OnlyWithout(d[1..], other, k);
      if d[0].key != other {
        OnlyCons(d[0], Without(d[1..], other), k);
      }
    }
  }

  /** Setting one name keeps every entry of every other name, in order. */
  lemma {:induction false} OnlySet(d: seq<Entry>, other: string, v: string, k: string)
    requires k != other
    ensures Only(Set(d, other, v), k) == Only(d, k)
  {
    if d == [] {
      OnlyCons(Entry(other, v), [], k);
    } else if d[0].key == other {
      OnlyCons(Entry(other, v), Without(d[1..], other), k);
      OnlyWithout(d[1..], other, k);
    } else {
      OnlySet(d[1..], other, v, k);
      OnlyCons(d[0], Set(d[1..], other, v), k);
    }
  }

  /** Successive `set`s of other names keep every entry of `k`, in order. */
  lemma {:induction false} OnlySetAll(d: seq<Entry>, ups: seq<Entry>, k: string)
    requires forall j :: 0 <= j < |ups| ==> ups[j].key != k
    ensures Only(SetAll(d, ups), k) == Only(d, k)
    decreases |ups|
  {
    if ups != [] {
      var rest := ups[1..];
      forall m | 0 <= m < |rest| ensures rest[m].key != k {
        assert rest[m] == ups[m + 1];
      }
      OnlySetAll(Set(d, ups[0].key, ups[0].value), rest, k);
      OnlySet(d, ups[0].key, ups[0].value, k);
    }
  }

  /**
   * Copies every entry, in order, into a fresh `URLSearchParams` list by
   * `append`, as the form does before encoding the body.
   */
  method ToSearchParams(data: seq<Entry>) returns (params: seq<Entry>)
    ensures params == data
  {
    params := [];
    var i := 0;
    while i < |data|
      invariant 0 <= i <= |data|
      invariant params == data[..i]
    {
      params := params + [data[i]];
      i := i + 1;
    }
  }
}
