/**
 * The iOS latency bookkeeping (`MeasureInfo`, `MeasureHelper`): per measure
 * type a start and an end timestamp in milliseconds and the list of measured
 * intervals, summarised as min, max, average and last.  The clock is a
 * parameter; `Double` values are modelled as exact reals.
 */
module Measure {

  datatype MeasureType = LastSpeech

  /** The smallest element. */
  function MinOf(xs: seq<real>): real
    requires xs != []
    decreases |xs|
  {
    if |xs| == 1 then xs[0]
    else
      var m := MinOf(xs[..|xs| - 1]);
      if xs[|xs| - 1] < m then xs[|xs| - 1] else m
  }

  /** The largest element. */
  function MaxOf(xs: seq<real>): real
    requires xs != []
    decreases |xs|
  {
    if |xs| == 1 then xs[0]
    else
      var m := MaxOf(xs[..|xs| - 1]);
      if xs[|xs| - 1] > m then xs[|xs| - 1] else m
  }

  /** `reduce(0.0, +)`: the sum, added from the front. */
  function SumOf(xs: seq<real>): real
    decreases |xs|
  {
    if xs == [] then 0.0 else SumOf(xs[..|xs| - 1]) + xs[|xs| - 1]
  }

  /** The minimum and maximum bound every element and occur in the list. */
  lemma {:induction false} MinMaxBound(xs: seq<real>)
    requires xs != []
    ensures forall i :: 0 <= i < |xs| ==> MinOf(xs) <= xs[i] <= MaxOf(xs)
    ensures MinOf(xs) in xs && MaxOf(xs) in xs
    decreases |xs|
  {
    if |xs| > 1 {
      var n := |xs| - 1;
      var prev := xs[..n];
      MinMaxBound(prev);
      forall i | 0 <= i < n
        ensures MinOf(xs) <= xs[i] <= MaxOf(xs)
      {
        assert xs[i] == prev[i];
      }
      assert MinOf(prev) in prev && MaxOf(prev) in prev;
    }
  }

  /** `a <= b` scaled by a count. */
  lemma Scale(a: real, b: real, n: real)
    requires a <= b && n >= 0.0
    ensures a * n <= b * n
  {
    assert b * n - a * n == (b - a) * n;
  }

  /** The sum lies between count times minimum and count times maximum. */
  lemma {:induction false} SumBounds(xs: seq<real>)
    requires xs != []
    ensures MinOf(xs) * (|xs| as real) <= SumOf(xs) <= MaxOf(xs) * (|xs| as real)
    decreases |xs|
  {
    var n := |xs| - 1;
    var prev := xs[..n];
    assert SumOf(xs) == SumOf(prev) + xs[n];
    if n > 0 {
      SumBounds(prev);
      var lo, hi := MinOf(xs), MaxOf(xs);
      assert lo <= MinOf(prev) && MaxOf(prev) <= hi && lo <= xs[n] <= hi;
      Scale(lo, MinOf(prev), n as real);
      Scale(MaxOf(prev), hi, n as real);
      assert lo * (|xs| as real) == lo * (n as real) + lo;
      assert hi * (|xs| as real) == hi * (n as real) + hi;
    }
  }

  /** The four keys of an export are different strings. */
  lemma KeysDistinct()
    ensures "min" != "max" && "min" != "avg" && "min" != "last"
    ensures "max" != "avg" && "max" != "last" && "avg" != "last"
  {
    assert "min"[1] != "max"[1] && "min"[0] != "avg"[0] && "min"[0] != "last"[0];
    assert "max"[0] != "avg"[0] && "max"[0] != "last"[0] && "avg"[0] != "last"[0];
  }

  class MeasureInfo {
    var start: int
    var end: int
    var list: seq<real>

    constructor()
      ensures start == 0 && end == 0 && list == []
    {
      start := 0;
      end := 0;
      list := [];
    }

    /** `count()`: the interval `end - start` is appended; nothing else changes. */
    method Count()
      modifies `list
      ensures list == old(list) + [(end - start) as real]
    {
      list := list + [(end - start) as real];
    }

    /** `reset()`: both timestamps back to 0; the list is kept. */
    method Reset()
      modifies `start, `end
      ensures start == 0 && end == 0
    {
      start := 0;
      end := 0;
    }

    /**
     * `export()`: nothing for an empty list; otherwise the keys "min", "max",
     * "avg" and "last", with min <= avg <= max, min <= last <= max, the last
     * interval under "last" and the sum over the count under "avg".
     */
    function Export(): (r: map<string, real>)
      reads `list
      ensures list == [] <==> r == map[]
      ensures list != [] ==>
        r.Keys == {"min", "max", "avg", "last"} &&
        (forall i :: 0 <= i < |list| ==> r["min"] <= list[i] <= r["max"]) &&
        r["min"] in list && r["max"] in list &&
        r["min"] <= r["avg"] <= r["max"] &&
        r["last"] == list[|list| - 1] &&
        r["avg"] * (|list| as real) == SumOf(list)
    {
      if list == [] then map[]
      else
        var n := |list| as real;
        var average := SumOf(list) / n;
        MinMaxBound(list);
        SumBounds(list);
        AverageBetween(MinOf(list), SumOf(list), MaxOf(list), n);
        KeysDistinct();
        var r := map["min" := MinOf(list), "max" := MaxOf(list), "avg" := average, "last" := list[|list| - 1]];
        assert "min" in r;
        r
    }
  }

  /** Dividing `lo * n <= sum <= hi * n` by a positive `n`. */
  lemma AverageBetween(lo: real, sum: real, hi: real, n: real)
    requires n > 0.0 && lo * n <= sum <= hi * n
    ensures lo <= sum / n <= hi && sum / n * n == sum
  {
    var q := sum / n;
    assert q * n == sum;
    assert (q - lo) * n >= 0.0;
    assert (hi - q) * n >= 0.0;
  }

  /** `MeasureHelper`'s static table, and the exports handed to its listener. */
  class MeasureHelper {
    var table: map<MeasureType, MeasureInfo>
    /** The `(type, export())` pairs passed to `listener`, in order. */
    var exports: seq<(MeasureType, map<string, real>)>

    constructor()
      ensures table == map[] && exports == []
    {
      table := map[];
      exports := [];
    }

    /** `start(type)` at clock value `now`: the entry is created if absent and its start set. */
    method Start(t: MeasureType, now: int)
      modifies `table, if t in table then {table[t]} else {}
      ensures t in table && table.Keys == old(table.Keys) + {t}
      ensures forall k :: k in old(table) && k != t ==> table[k] == old(table[k])
      ensures t in old(table) ==> table[t] == old(table[t])
      ensures t !in old(table) ==> fresh(table[t]) && table[t].end == 0 && table[t].list == []
      ensures table[t].start == now
      ensures t in old(table) ==> table[t].end == old(table[t].end) && table[t].list == old(table[t].list)
      ensures unchanged(`exports)
    {
      if t !in table {
        var info := new MeasureInfo();
        table := table[t := info];
      }
      table[t].start := now;
    }

    /**
     * `end(type)` at clock value `now`: the entry is created if absent, the
     * interval since its start is appended, both timestamps are reset, and the
     * entry's export goes to the listener.
     */
    method End(t: MeasureType, now: int)
      modifies `table, `exports, if t in table then {table[t]} else {}
      ensures t in table && table.Keys == old(table.Keys) + {t}
      ensures forall k :: k in old(table) && k != t ==> table[k] == old(table[k])
      ensures t in old(table) ==>
        table[t] == old(table[t]) && table[t].list == old(table[t].list) + [(now - old(table[t].start)) as real]
      ensures t !in old(table) ==> fresh(table[t]) && table[t].list == [now as real]
      ensures table[t].start == 0 && table[t].end == 0
      ensures exports == old(exports) + [(t, table[t].Export())]
    {
      if t !in table {
        var created := new MeasureInfo();
        table := table[t := created];
      }
      var info := table[t];
      info.end := now;
      info.Count();
      info.Reset();
      exports := exports + [(t, info.Export())];
    }

    /** `reset()`: every entry is dropped. */
    method Reset()
      modifies `table
      ensures table == map[]
    {
      table := map[];
    }
  }
}
