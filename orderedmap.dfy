/**
 * The insertion-ordered string map the cookie component keeps its parsed
 * cookies in, as that component uses it: entries in order, keys unique,
 * Set keeping an existing key's position, Delete not reordering the rest.
 */
module OrderedMap {
  import opened Wrappers

  datatype Entry = Entry(key: string, value: string)

  type Entries = seq<Entry>

  /** The keys in iteration order. */
  function Keys(es: Entries): (r: seq<string>)
    ensures |r| == |es| && forall i :: 0 <= i < |es| ==> r[i] == es[i].key
  {
    seq(|es|, i requires 0 <= i < |es| => es[i].key)
  }

  /** The invariant of the structure: no key appears twice. */
  predicate UniqueKeys(es: Entries)
  {
    forall i, j :: 0 <= i < j < |es| ==> es[i].key != es[j].key
  }

  /** The position of `k`, if present. */
  function IndexOf(es: Entries, k: string): (r: Option<nat>)
    ensures r.Some? ==> r.value < |es| && es[r.value].key == k
    ensures r.Some? ==> forall j :: 0 <= j < r.value ==> es[j].key != k
    ensures r.None? <==> k !in Keys(es)
  {
    if es == [] then None
    else if es[0].key == k then Some(0)
    else match IndexOf(es[1..], k)
      case Some(j) => Some(j + 1)
      case None => None
  }

  /** The value stored under `k`, if any. */
  function Get(es: Entries, k: string): (r: Option<string>)
    ensures r.Some? <==> k in Keys(es)
    ensures r.Some? ==> Entry(k, r.value) in es
  {
    match IndexOf(es, k)
    case Some(i) => Some(es[i].value)
    case None => None
  }

  /**
   * Set: an existing key takes the new value in its own position; a new key
   * is appended at the end. SetGet states what Get then finds.
   */
  function Set(es: Entries, k: string, v: string): (r: Entries)
    ensures k in Keys(es) ==> Keys(r) == Keys(es)
    ensures k !in Keys(es) ==> r == es + [Entry(k, v)]
    ensures UniqueKeys(es) ==> UniqueKeys(r)
  {
    match IndexOf(es, k)
    case Some(i) =>
      var r := es[i := Entry(k, v)];
      assert Keys(r) == Keys(es);
      r
    case None =>
      var r := es + [Entry(k, v)];
      assert Keys(r) == Keys(es) + [k];
      r
  }

  /** After Set, `k` holds the new value and every other key keeps its value. */
  lemma SetGet(es: Entries, k: string, v: string)
    ensures Get(Set(es, k, v), k) == Some(v)
    ensures forall k' :: k' != k ==> Get(Set(es, k, v), k') == Get(es, k')
  {
    match IndexOf(es, k)
    case Some(i) =>
      IndexOfUpdate(es, i, v);
      IndexOfUpdateOthers(es, i, v);
    case None =>
      IndexOfAppend(es, Entry(k, v));
      IndexOfAppendOthers(es, Entry(k, v));
  }

  lemma {:induction false} IndexOfUpdate(es: Entries, i: nat, v: string)
    requires i < |es| && IndexOf(es, es[i].key) == Some(i)
    ensures IndexOf(es[i := Entry(es[i].key, v)], es[i].key) == Some(i)
  {
    if i > 0 {
      var k, u := es[i].key, es[i := Entry(es[i].key, v)];
      assert es[0].key != k;
      assert IndexOf(es[1..], k) == Some(i - 1);
      assert u[1..] == es[1..][i - 1 := Entry(k, v)];
      IndexOfUpdate(es[1..], i - 1, v);
      assert u[0] == es[0];
    }
  }

  lemma {:induction false} IndexOfUpdateOther(es: Entries, i: nat, v: string, k': string)
    requires i < |es| && k' != es[i].key
    ensures IndexOf(es[i := Entry(es[i].key, v)], k') == IndexOf(es, k')
  {
    if es[0].key != k' && i > 0 {
      assert es[i := Entry(es[i].key, v)][1..] == es[1..][i - 1 := Entry(es[i].key, v)];
      IndexOfUpdateOther(es[1..], i - 1, v, k');
    } else if i == 0 {
      assert es[i := Entry(es[i].key, v)][1..] == es[1..];
    }
  }

  lemma IndexOfUpdateOthers(es: Entries, i: nat, v: string)
    requires i < |es|
    ensures forall k' :: k' != es[i].key ==> IndexOf(es[i := Entry(es[i].key, v)], k') == IndexOf(es, k')
  {
    forall k' | k' != es[i].key ensures IndexOf(es[i := Entry(es[i].key, v)], k') == IndexOf(es, k') {
      IndexOfUpdateOther(es, i, v, k');
    }
  }

  lemma IndexOfAppendOthers(es: Entries, e: Entry)
    ensures forall k' :: k' != e.key ==> IndexOf(es + [e], k') == IndexOf(es, k')
  {
    forall k' | k' != e.key ensures IndexOf(es + [e], k') == IndexOf(es, k') {
      IndexOfAppendOther(es, e, k');
    }
  }

  lemma {:induction false} IndexOfAppend(es: Entries, e: Entry)
    requires e.key !in Keys(es)
    ensures IndexOf(es + [e], e.key) == Some(|es|)
  {
    if es != [] {
      assert (es + [e])[1..] == es[1..] + [e];
      assert Keys(es[1..]) == Keys(es)[1..];
      IndexOfAppend(es[1..], e);
    }
  }

  lemma {:induction false} IndexOfAppendOther(es: Entries, e: Entry, k': string)
    requires k' != e.key
    ensures IndexOf(es + [e], k') == IndexOf(es, k')
  {
    if es != [] {
      assert (es + [e])[1..] == es[1..] + [e];
      IndexOfAppendOther(es[1..], e, k');
    }
  }

  /** The entries without the one keyed `k`. */
  function Delete(es: Entries, k: string): (r: Entries)
    ensures forall e :: e in r <==> e in es && e.key != k
    ensures UniqueKeys(es) ==> UniqueKeys(r)
    ensures UniqueKeys(es) ==> r == Removed(es, k)
  {
    if es == [] then []
    else
      var tail := Delete(es[1..], k);
      DeleteStep(es, k, tail);
      if es[0].key == k then tail else [es[0]] + tail
  }

  /** Under unique keys: the entries before the one keyed `k` followed by those after it. */
  function Removed(es: Entries, k: string): Entries
  {
    match IndexOf(es, k)
    case Some(i) => es[..i] + es[i + 1..]
    case None => es
  }

  /** One step of Delete keeps its postconditions. */
  lemma DeleteStep(es: Entries, k: string, tail: Entries)
    requires es != []
    requires forall e :: e in tail <==> e in es[1..] && e.key != k
    requires UniqueKeys(es[1..]) ==> UniqueKeys(tail) && tail == Removed(es[1..], k)
    ensures UniqueKeys(es) ==> UniqueKeys(if es[0].key == k then tail else [es[0]] + tail)
    ensures UniqueKeys(es) ==> (if es[0].key == k then tail else [es[0]] + tail) == Removed(es, k)
  {
    if UniqueKeys(es) {
      assert UniqueKeys(es[1..]);
      if es[0].key == k {
        DeleteStepHead(es, k);
      } else {
        DeleteStepKeep(es, k, tail);
      }
    }
  }

  lemma DeleteStepHead(es: Entries, k: string)
    requires es != [] && UniqueKeys(es) && es[0].key == k
    ensures Removed(es, k) == Removed(es[1..], k)
  {
    assert k !in Keys(es[1..]);
    assert IndexOf(es[1..], k).None?;
    assert es[..0] + es[1..] == es[1..];
  }

  lemma DeleteStepKeep(es: Entries, k: string, tail: Entries)
    requires es != [] && UniqueKeys(es) && es[0].key != k
    requires forall e :: e in tail <==> e in es[1..] && e.key != k
    requires UniqueKeys(tail) && tail == Removed(es[1..], k)
    ensures UniqueKeys([es[0]] + tail)
    ensures [es[0]] + tail == Removed(es, k)
  {
    DeleteKeepUnique(es, k, tail);
    DeleteKeepRemoved(es, k);
  }

  lemma DeleteKeepUnique(es: Entries, k: string, tail: Entries)
    requires es != [] && UniqueKeys(es)
    requires forall e :: e in tail ==> e in es[1..]
    requires UniqueKeys(tail)
    ensures UniqueKeys([es[0]] + tail)
  {
    var r := [es[0]] + tail;
    forall i, j | 0 <= i < j < |r| ensures r[i].key != r[j].key {
      if i == 0 {
        assert r[j] == tail[j - 1];
        assert r[j] in es[1..];
        var m :| 0 <= m < |es[1..]| && es[1..][m] == r[j];
        assert es[m + 1] == r[j];
      } else {
        assert r[i] == tail[i - 1] && r[j] == tail[j - 1];
      }
    }
  }

  lemma DeleteKeepRemoved(es: Entries, k: string)
    requires es != [] && es[0].key != k
    ensures [es[0]] + Removed(es[1..], k) == Removed(es, k)
  {
    var t := es[1..];
    var j := IndexOf(t, k);
    IndexOfCons(es, k);
    if j.Some? {
      SpliceCons(es, j.value);
    } else {
      assert [es[0]] + t == es;
    }
  }

  /** Past a first entry with another key, the position moves by one. */
  lemma IndexOfCons(es: Entries, k: string)
    requires es != [] && es[0].key != k
    ensures IndexOf(es, k) == match IndexOf(es[1..], k) case Some(j) => Some(j + 1) case None => None
  {
  }

  lemma SpliceCons(es: Entries, j: nat)
    requires j + 1 < |es|
    ensures [es[0]] + (es[1..][..j] + es[1..][j + 1..]) == es[..j + 1] + es[j + 2..]
  {
    var t := es[1..];
    assert es[..j + 1] == [es[0]] + t[..j];
    assert es[j + 2..] == t[j + 1..];
  }
}
