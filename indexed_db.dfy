/** The browser's IndexedDB database `ChatAppDB` as both web clients use it: a
    `sessions` object store keyed by `id`, whose records `getAll` returns in key
    order, and a `settings` object store of values keyed by name. */
module IndexedDb {
  import opened Wrappers
  import opened JsonValue

  /** Why a storage request was rejected. */
  datatype DbError =
    | OpenFailed          // `indexedDB.open` fired `error`
    | MissingId           // 'Session must have a valid id'
    | ConstraintError     // `add` of a key the store already holds
    | DataError           // `add` of a value that is not a valid key
    | TypeError           // a property read on `null`

  /** How an awaited storage promise settled. */
  datatype Status = Resolved | Rejected(error: DbError)

  const MissingIdMessage: string := "Session must have a valid id"

  // ---------------------------------------------------------------------------
  // Keys and their order

  /** A record key. IndexedDB sorts every number before every string. */
  datatype Key = NumKey(n: real) | StrKey(s: string)

  /** Strings compare character by character, by Unicode scalar value; a proper
      prefix sorts first. IndexedDB compares UTF-16 code units, which orders
      characters outside the Basic Multilingual Plane differently. */
  predicate StrBelow(a: string, b: string)
    decreases |a|
  {
    |b| > 0 && (|a| == 0 || a[0] < b[0] || (a[0] == b[0] && StrBelow(a[1..], b[1..])))
  }

  predicate Below(a: Key, b: Key) {
    match a
    case NumKey(x) => (b.NumKey? && x < b.n) || b.StrKey?
    case StrKey(x) => b.StrKey? && StrBelow(x, b.s)
  }

  lemma {:induction false} StrBelowAsymmetric(a: string, b: string)
    ensures !(StrBelow(a, b) && StrBelow(b, a))
    decreases |a|
  {
    if |a| > 0 && |b| > 0 && a[0] == b[0] {
      StrBelowAsymmetric(a[1..], b[1..]);
    }
  }

  lemma {:induction false} StrBelowTotal(a: string, b: string)
    ensures a == b || StrBelow(a, b) || StrBelow(b, a)
    decreases |a|
  {
    if |a| > 0 && |b| > 0 && a[0] == b[0] {
      StrBelowTotal(a[1..], b[1..]);
      if a[1..] == b[1..] {
        assert a == [a[0]] + a[1..] && b == [b[0]] + b[1..];
      }
    }
  }

  lemma {:induction false} StrBelowTransitive(a: string, b: string, c: string)
    requires StrBelow(a, b) && StrBelow(b, c)
    ensures StrBelow(a, c)
    decreases |a|
  {
    if |a| > 0 && a[0] == b[0] && b[0] == c[0] {
      StrBelowTransitive(a[1..], b[1..], c[1..]);
    }
  }

  /** `Below` is a strict total order on keys. */
  lemma KeyOrder(a: Key, b: Key, c: Key)
    ensures !(Below(a, b) && Below(b, a))
    ensures a == b || Below(a, b) || Below(b, a)
    ensures Below(a, b) && Below(b, c) ==> Below(a, c)
  {
    if a.StrKey? && b.StrKey? {
      StrBelowAsymmetric(a.s, b.s);
      StrBelowTotal(a.s, b.s);
      if c.StrKey? && Below(a, b) && Below(b, c) {
        StrBelowTransitive(a.s, b.s, c.s);
      }
    }
  }

  // ---------------------------------------------------------------------------
  // The sessions store: records held in ascending key order

  datatype Entry<R> = Entry(key: Key, record: R)

  predicate Ascending<R>(s: seq<Entry<R>>) {
    forall i, j :: 0 <= i < j < |s| ==> Below(s[i].key, s[j].key)
  }

  function KeysOf<R>(s: seq<Entry<R>>): (ks: seq<Key>)
    ensures |ks| == |s|
    ensures forall i :: 0 <= i < |s| ==> ks[i] == s[i].key
  {
    seq(|s|, i requires 0 <= i < |s| => s[i].key)
  }

  /** What `getAll` resolves with: the records, in the store's (key) order. */
  function Records<R>(s: seq<Entry<R>>): (rs: seq<R>)
    ensures |rs| == |s|
    ensures forall i :: 0 <= i < |s| ==> rs[i] == s[i].record
  {
    seq(|s|, i requires 0 <= i < |s| => s[i].record)
  }

  /** The store seen as a map keyed by the records' keys. */
  function AsMap<R>(s: seq<Entry<R>>): (m: map<Key, R>)
    ensures forall k :: k in m <==> k in KeysOf(s)
  {
    if s == [] then map[] else AsMap(s[1..])[s[0].key := s[0].record]
  }

  /** Where `add` puts a record: before the first larger key. */
  function Insert<R(!new)>(s: seq<Entry<R>>, e: Entry<R>): (r: seq<Entry<R>>)
    ensures |r| == |s| + 1
    ensures forall x :: x in r <==> x == e || x in s
  {
    if s == [] then [e]
    else if Below(e.key, s[0].key) then [e] + s
    else [s[0]] + Insert(s[1..], e)
  }

  lemma {:induction false} InsertAscending<R(!new)>(s: seq<Entry<R>>, e: Entry<R>)
    requires Ascending(s) && e.key !in KeysOf(s)
    ensures Ascending(Insert(s, e))
    decreases |s|
  {
    if s != [] {
      if Below(e.key, s[0].key) {
        forall j | 0 <= j < |s| ensures Below(e.key, s[j].key) {
          KeyOrder(e.key, s[0].key, s[j].key);
        }
      } else {
        assert KeysOf(s[1..]) == KeysOf(s)[1..];
        InsertAscending(s[1..], e);
        KeyOrder(e.key, s[0].key, e.key);
        var r := Insert(s[1..], e);
        forall x | x in r ensures Below(s[0].key, x.key) {
          if x != e {
            var j :| 0 <= j < |s[1..]| && s[1..][j] == x;
            assert s[j + 1] == x;
          }
        }
      }
    }
  }

  /** In an ascending store, each key names at most one record. */
  lemma AscendingKeysDistinct<R>(s: seq<Entry<R>>, i: nat, j: nat)
    requires Ascending(s) && i < |s| && j < |s| && s[i].key == s[j].key
    ensures i == j
  {
    if i < j {
      KeyOrder(s[i].key, s[j].key, s[j].key);
    } else if j < i {
      KeyOrder(s[j].key, s[i].key, s[i].key);
    }
  }

  /** Two ascending stores holding the same entries are the same sequence: the
      order of `getAll` depends only on the keys, never on the order of insertion. */
  lemma {:induction false} AscendingUnique<R>(s: seq<Entry<R>>, t: seq<Entry<R>>)
    requires Ascending(s) && Ascending(t)
    requires forall x :: x in s <==> x in t
    ensures s == t
    decreases |s|
  {
    assert s != [] ==> s[0] in s;
    assert t != [] ==> t[0] in t;
    if s != [] {
      assert s[0] in t;
      assert t[0] in t;
      var i :| 0 <= i < |t| && t[i] == s[0];
      var j :| 0 <= j < |s| && s[j] == t[0];
      assert s[0] == t[0] by {
        KeyOrder(t[0].key, s[0].key, t[0].key);
      }
      forall x ensures x in s[1..] <==> x in t[1..] {
        if x in s[1..] {
          var a :| 0 <= a < |s[1..]| && s[1..][a] == x;
          assert s[a + 1] == x;
          KeyOrder(s[0].key, x.key, x.key);
          assert x in t;
        }
        if x in t[1..] {
          var b :| 0 <= b < |t[1..]| && t[1..][b] == x;
          assert t[b + 1] == x;
          KeyOrder(t[0].key, x.key, x.key);
          assert x in s;
        }
      }
      AscendingUnique(s[1..], t[1..]);
      assert s == [s[0]] + s[1..] && t == [t[0]] + t[1..];
    }
  }

  // ---------------------------------------------------------------------------
  // Clear-then-add inside one read-write transaction

  /** What one input record turns into: an `add` of an entry, or an error thrown
      before any `add` is issued for it. */
  datatype Step<R> = Put(entry: Entry<R>) | Reject(error: DbError)

  /** The transaction after the `clear` and a prefix of the steps: still open with
      these records; ended by a thrown error, which lets the records added so far
      commit; or aborted by a failed `add`, which undoes the `clear` as well. */
  datatype Filled<R> = Open(state: seq<Entry<R>>) | Thrown(state: seq<Entry<R>>, error: DbError) | Aborted

  function Fill<R(!new)>(steps: seq<Step<R>>): Filled<R>
  {
    if steps == [] then Open([])
    else
      match Fill(steps[..|steps| - 1])
      case Open(s) =>
        (match steps[|steps| - 1]
         case Reject(err) => Thrown(s, err)
         case Put(e) => if e.key in KeysOf(s) then Aborted else Open(Insert(s, e)))
      case other => other
  }

  datatype Replacement<R> = Replacement(state: seq<Entry<R>>, status: Status)

  /** The sessions store and the settled promise after `saveSessions` ran over
      `steps` on a store that held `before`. */
  function Replaced<R(!new)>(before: seq<Entry<R>>, steps: seq<Step<R>>): Replacement<R> {
    match Fill(steps)
    case Open(s) => Replacement(s, Resolved)
    case Thrown(s, err) => Replacement(s, Rejected(err))
    case Aborted => Replacement(before, Rejected(ConstraintError))
  }

  predicate AllPut<R>(steps: seq<Step<R>>) {
    forall i :: 0 <= i < |steps| ==> steps[i].Put?
  }

  function Puts<R>(steps: seq<Step<R>>): (es: seq<Entry<R>>)
    requires AllPut(steps)
    ensures |es| == |steps| && forall i :: 0 <= i < |steps| ==> es[i] == steps[i].entry
  {
    seq(|steps|, i requires 0 <= i < |steps| => steps[i].entry)
  }

  predicate DistinctKeys<R>(es: seq<Entry<R>>) {
    forall i, j :: 0 <= i < j < |es| ==> es[i].key != es[j].key
  }

  /** Every store state the transaction passes through is in key order. */
  lemma {:induction false} FillAscending<R(!new)>(steps: seq<Step<R>>)
    ensures Fill(steps).Open? || Fill(steps).Thrown? ==> Ascending(Fill(steps).state)
    decreases |steps|
  {
    if steps != [] {
      FillAscending(steps[..|steps| - 1]);
      var f := Fill(steps[..|steps| - 1]);
      if f.Open? && steps[|steps| - 1].Put? && steps[|steps| - 1].entry.key !in KeysOf(f.state) {
        InsertAscending(f.state, steps[|steps| - 1].entry);
      }
    }
  }

  /** Records with distinct keys and no rejected input are all stored, and nothing else is. */
  lemma {:induction false} FillAllPut<R(!new)>(steps: seq<Step<R>>)
    requires AllPut(steps) && DistinctKeys(Puts(steps))
    ensures Fill(steps).Open?
    ensures forall x :: x in Fill(steps).state <==> x in Puts(steps)
    decreases |steps|
  {
    if steps != [] {
      var n := |steps| - 1;
      var p := steps[..n];
      assert Puts(p) == Puts(steps)[..n];
      FillAllPut(p);
      FreshKey(Fill(p).state, Puts(steps), n);
      assert Puts(steps) == Puts(p) + [steps[n].entry];
    }
  }

  lemma FreshKey<R>(st: seq<Entry<R>>, es: seq<Entry<R>>, n: nat)
    requires n < |es| && DistinctKeys(es)
    requires forall x :: x in st <==> x in es[..n]
    ensures es[n].key !in KeysOf(st)
  {
    forall i | 0 <= i < |st| ensures st[i].key != es[n].key {
      assert st[i] in es[..n];
    }
  }

  /** Without rejected inputs the transaction either stays open holding every
      record, or is aborted by a repeated key. */
  lemma {:induction false} FillOfPuts<R(!new)>(steps: seq<Step<R>>)
    requires AllPut(steps)
    ensures Fill(steps).Open? || Fill(steps).Aborted?
    ensures Fill(steps).Open? ==> forall x :: x in Fill(steps).state <==> x in Puts(steps)
    decreases |steps|
  {
    if steps != [] {
      var n := |steps| - 1;
      assert Puts(steps[..n]) == Puts(steps)[..n];
      FillOfPuts(steps[..n]);
      assert Puts(steps) == Puts(steps[..n]) + [steps[n].entry];
    }
  }

  /** A first rejected input ends the transaction with the records before it
      committed: the `clear` is not undone. */
  lemma FillRejectedAt<R(!new)>(steps: seq<Step<R>>, i: nat)
    requires i < |steps| && steps[i].Reject?
    requires AllPut(steps[..i]) && DistinctKeys(Puts(steps[..i]))
    ensures Fill(steps).Thrown? && Fill(steps).error == steps[i].error
    ensures forall x :: x in Fill(steps).state <==> x in Puts(steps[..i])
  {
    FillAllPut(steps[..i]);
    assert steps[..i + 1][..i] == steps[..i];
    FillAfterEnd(steps, i + 1);
  }

  /** One more step of a transaction that is still open. */
  lemma FillNext<R(!new)>(steps: seq<Step<R>>, i: nat, s: seq<Entry<R>>)
    requires i < |steps| && Fill(steps[..i]) == Open(s)
    ensures steps[i].Reject? ==> Fill(steps[..i + 1]) == Thrown(s, steps[i].error)
    ensures steps[i].Put? ==>
      Fill(steps[..i + 1]) == if steps[i].entry.key in KeysOf(s) then Aborted else Open(Insert(s, steps[i].entry))
  {
    assert steps[..i + 1][..i] == steps[..i];
  }

  /** Once the transaction has ended, later inputs change nothing. */
  lemma {:induction false} FillAfterEnd<R(!new)>(steps: seq<Step<R>>, n: nat)
    requires n <= |steps| && !Fill(steps[..n]).Open?
    ensures Fill(steps) == Fill(steps[..n])
    decreases |steps| - n
  {
    if n < |steps| {
      assert steps[..n + 1][..n] == steps[..n];
      FillAfterEnd(steps, n + 1);
    } else {
      assert steps[..n] == steps;
    }
  }

  // ---------------------------------------------------------------------------
  // The database object

  class Database<R(!new)> {
    var sessions: seq<Entry<R>>
    var settings: map<string, Json>

    predicate Valid()
      reads this
    {
      Ascending(sessions)
    }

    /** A database created by `onupgradeneeded`: both stores empty. */
    constructor ()
      ensures Valid() && sessions == [] && settings == map[]
    {
      sessions := [];
      settings := map[];
    }

    /** `store.clear()` on the sessions store. */
    method Clear()
      modifies this`sessions
      ensures Valid() && sessions == []
    {
      sessions := [];
    }

    /** `store.add(record)`: fails with a `ConstraintError` when the key is taken. */
    method Add(e: Entry<R>) returns (ok: bool)
      requires Valid()
      modifies this`sessions
      ensures Valid()
      ensures ok <==> e.key !in KeysOf(old(sessions))
      ensures sessions == if ok then Insert(old(sessions), e) else old(sessions)
    {
      ok := e.key !in KeysOf(sessions);
      if ok {
        InsertAscending(sessions, e);
        sessions := Insert(sessions, e);
      }
    }

    /** An aborted transaction puts back what the store held when it began. */
    method Rollback(snapshot: seq<Entry<R>>)
      requires Ascending(snapshot)
      modifies this`sessions
      ensures Valid() && sessions == snapshot
    {
      sessions := snapshot;
    }

    /** `store.getAll()`. */
    method GetAll() returns (rs: seq<R>)
      ensures rs == Records(sessions)
    {
      rs := Records(sessions);
    }

    /** `store.put({ key, value })` on the settings store. */
    method Put(key: string, value: Json)
      modifies this`settings
      ensures settings == old(settings)[key := value]
    {
      settings := settings[key := value];
    }

    /** `store.get(key)` on the settings store: `undefined` when absent. */
    method Get(key: string) returns (v: Option<Json>)
      ensures v.Some? <==> key in settings
      ensures v.Some? ==> v.value == settings[key]
    {
      v := if key in settings then Some(settings[key]) else None;
    }
  }
}
