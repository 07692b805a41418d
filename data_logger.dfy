/** The data logger (core/data_logger.py): a dictionary from a fixed set of column
    names to lists that only ever grow at the end. Logging under a name the logger
    was not created with raises `KeyError` and creates nothing. Logged values are
    modelled as reals; the integer inventory is logged as its real value. */
module Logging {
  import opened Common

  type Columns = map<string, seq<real>>

  /** The six columns a new logger starts with. */
  const StockKeys: set<string> :=
    {"mid_prices", "bid_prices", "ask_prices", "reservation_prices", "inventory", "cash"}

  /** `data[key].append(value)`, or the `KeyError` it raises. */
  function Logged(data: Columns, key: string, value: real): (r: Result<Columns>)
    ensures r.Success? <==> key in data
    ensures r.Failure? ==> r.error == KeyError(key)
    ensures r.Success? ==> r.value.Keys == data.Keys && r.value[key] == data[key] + [value]
    ensures r.Success? ==> forall k :: k in data && k != key ==> r.value[k] == data[k]
  {
    if key in data then Success(data[key := data[key] + [value]]) else Failure(KeyError(key))
  }

  /** A run of `log` calls, stopping at the first one that raises. Returns the
      columns as they stand afterwards and whether every call succeeded. */
  function LoggedAll(data: Columns, entries: seq<(string, real)>): (r: (Columns, Outcome))
    ensures r.0.Keys == data.Keys
    ensures r.1.Fail? ==> r.1.error.KeyError? && r.1.error.key !in data
    decreases |entries|
  {
    if entries == [] then (data, Pass)
    else
      var (key, value) := entries[0];
      if key in data then LoggedAll(data[key := data[key] + [value]], entries[1..])
      else (data, Fail(KeyError(key)))
  }

  /** One more `log` call after a run of them, made only if the run has not
      raised. */
  function LogAfter(acc: (Columns, Outcome), key: string, value: real): (Columns, Outcome)
  {
    if acc.1.Fail? then acc
    else if key in acc.0 then (acc.0[key := acc.0[key] + [value]], Pass)
    else (acc.0, Fail(KeyError(key)))
  }

  /** The values logged under `key`, in logging order. */
  function ValuesFor(entries: seq<(string, real)>, key: string): seq<real>
    decreases |entries|
  {
    if entries == [] then []
    else (if entries[0].0 == key then [entries[0].1] else []) + ValuesFor(entries[1..], key)
  }

  predicate KeysIn(entries: seq<(string, real)>, keys: set<string>)
  {
    forall i :: 0 <= i < |entries| ==> entries[i].0 in keys
  }

  class DataLogger {
    var data: Columns

    constructor()
      ensures data.Keys == StockKeys
      ensures forall k :: k in data ==> data[k] == []
    {
      data := map["mid_prices" := [], "bid_prices" := [], "ask_prices" := [],
                  "reservation_prices" := [], "inventory" := [], "cash" := []];
    }

    method Log(key: string, value: real) returns (r: Outcome)
      modifies this
      ensures r.Pass? <==> key in old(data)
      ensures match Logged(old(data), key, value)
                case Success(d) => data == d && r == Pass
                case Failure(e) => data == old(data) && r == Fail(e)
    {
      if key in data {
        data := data[key := data[key] + [value]];
        r := Pass;
      } else {
        r := Fail(KeyError(key));
      }
    }
  }

  /** A call under a present key appends and the run goes on from there, with the
      same key set. */
  lemma LoggedAllStep(data: Columns, entries: seq<(string, real)>)
    requires entries != [] && KeysIn(entries, data.Keys)
    ensures var next := data[entries[0].0 := data[entries[0].0] + [entries[0].1]];
            && next.Keys == data.Keys
            && LoggedAll(data, entries) == LoggedAll(next, entries[1..])
            && KeysIn(entries[1..], next.Keys)
  {
    assert entries[0].0 in data.Keys;
    forall i | 0 <= i < |entries[1..]| ensures entries[1..][i].0 in data.Keys {
      assert entries[1..][i] == entries[i + 1];
    }
  }

  /** When every key is present, a run of `log` calls succeeds and keeps the key
      set. */
  lemma {:induction false} LoggedAllPasses(data: Columns, entries: seq<(string, real)>)
    requires KeysIn(entries, data.Keys)
    ensures LoggedAll(data, entries).1 == Pass
    ensures LoggedAll(data, entries).0.Keys == data.Keys
    decreases |entries|
  {
    if entries != [] {
      LoggedAllStep(data, entries);
      LoggedAllPasses(data[entries[0].0 := data[entries[0].0] + [entries[0].1]], entries[1..]);
    }
  }

  /** ... and column k ends as it was followed by exactly the values logged under
      k, in the order they were logged. */
  lemma {:induction false} LoggedAllColumn(data: Columns, entries: seq<(string, real)>, k: string)
    requires KeysIn(entries, data.Keys) && k in data
    ensures LoggedAll(data, entries).0.Keys == data.Keys
    ensures LoggedAll(data, entries).0[k] == data[k] + ValuesFor(entries, k)
    decreases |entries|
  {
    LoggedAllPasses(data, entries);
    if entries != [] {
      var key, value := entries[0].0, entries[0].1;
      var next := data[key := data[key] + [value]];
      LoggedAllStep(data, entries);
      LoggedAllColumn(next, entries[1..], k);
      assert next[k] == data[k] + (if key == k then [value] else []);
      assert ValuesFor(entries, k) == (if key == k then [value] else []) + ValuesFor(entries[1..], k);
    }
  }

  /** When every key is present, a run of `log` calls succeeds, keeps the key set,
      and leaves each column as it was followed by exactly the values logged under
      it, in the order they were logged. */
  lemma LoggedAllAppendsInOrder(data: Columns, entries: seq<(string, real)>)
    requires KeysIn(entries, data.Keys)
    ensures LoggedAll(data, entries).1 == Pass
    ensures LoggedAll(data, entries).0.Keys == data.Keys
    ensures forall k :: k in data ==> LoggedAll(data, entries).0[k] == data[k] + ValuesFor(entries, k)
  {
    LoggedAllPasses(data, entries);
    forall k | k in data
      ensures LoggedAll(data, entries).0[k] == data[k] + ValuesFor(entries, k)
    {
      LoggedAllColumn(data, entries, k);
    }
  }

  /** A run of `log` calls that reaches a key the logger lacks stops there: the
      calls before it have appended their values, the failing call raises
      `KeyError` for that key, and the key is not created. */
  lemma {:induction false} LoggedAllStopsAtMissingKey(data: Columns, entries: seq<(string, real)>, j: nat)
    requires j < |entries| && KeysIn(entries[..j], data.Keys) && entries[j].0 !in data
    ensures LoggedAll(data, entries).1 == Fail(KeyError(entries[j].0))
    ensures LoggedAll(data, entries).0 == LoggedAll(data, entries[..j]).0
    ensures entries[j].0 !in LoggedAll(data, entries).0
    decreases j
  {
    if j == 0 {
      assert entries[..0] == [];
    } else {
      var next := data[entries[0].0 := data[entries[0].0] + [entries[0].1]];
      assert entries[0] == entries[..j][0];
      var rest := entries[1..][..j - 1];
      assert KeysIn(rest, next.Keys) by {
        forall i | 0 <= i < |rest| ensures rest[i].0 in next.Keys {
          assert rest[i] == entries[..j][i + 1];
        }
      }
      LoggedAllStopsAtMissingKey(next, entries[1..], j - 1);
      assert entries[..j][1..] == rest;
      assert LoggedAll(data, entries[..j]) == LoggedAll(next, rest);
    }
  }

  /** The values logged by two consecutive runs are those of the first, then the second. */
  lemma {:induction false} ValuesForConcat(a: seq<(string, real)>, b: seq<(string, real)>, key: string)
    ensures ValuesFor(a + b, key) == ValuesFor(a, key) + ValuesFor(b, key)
    decreases |a|
  {
    if a == [] {
      assert a + b == b;
    } else {
      var head := if a[0].0 == key then [a[0].1] else [];
      assert (a + b)[0] == a[0];
      assert (a + b)[1..] == a[1..] + b;
      assert ValuesFor(a + b, key) == head + ValuesFor(a[1..] + b, key);
      ValuesForConcat(a[1..], b, key);
      assert head + (ValuesFor(a[1..], key) + ValuesFor(b, key))
             == (head + ValuesFor(a[1..], key)) + ValuesFor(b, key);
    }
  }

  /** The first j + 1 calls of a run are its first j calls, then call j. */
  lemma LoggedAllPrefixStep(data: Columns, entries: seq<(string, real)>, j: nat)
    requires j < |entries|
    ensures LoggedAll(data, entries[..j + 1]) == LogAfter(LoggedAll(data, entries[..j]), entries[j].0, entries[j].1)
  {
    assert entries[..j + 1] == entries[..j] + [(entries[j].0, entries[j].1)];
    LoggedAllSnoc(data, entries[..j], entries[j].0, entries[j].1);
  }

  /** A run of `log` calls followed by one more is that call made after the run,
      if the run did not raise. */
  lemma {:induction false} LoggedAllSnoc(data: Columns, entries: seq<(string, real)>, key: string, value: real)
    ensures LoggedAll(data, entries + [(key, value)]) == LogAfter(LoggedAll(data, entries), key, value)
    decreases |entries|
  {
    if entries == [] {
      assert entries + [(key, value)] == [(key, value)];
    } else {
      assert (entries + [(key, value)])[0] == entries[0];
      assert (entries + [(key, value)])[1..] == entries[1..] + [(key, value)];
      var (k, v) := entries[0];
      if k in data {
        LoggedAllSnoc(data[k := data[k] + [v]], entries[1..], key, value);
      }
    }
  }
}
