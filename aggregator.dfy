/** `dataParser`: drop the header, read the Dst, HON and SJG fields of every
    data row, route each value to the valid or the bad list of its column,
    count it in one of the nine buckets, and report max, min and counts. */
module Aggregator {
  import opened Wrappers
  import opened Text
  import opened Classifier

  /** Zero-based field positions of the three columns in a data row. */
  const DstPos: nat := 7
  const HonPos: nat := 10
  const SjgPos: nat := 11

  /** The file's marker for a missing measurement. */
  const Sentinel: real := 99999.0

  // ---------------------------------------------------------------------
  // What one column's accumulators should hold after a sequence of values

  /** The values kept for min, max and the valid count: every non-sentinel
      value, in order. */
  function ValidOf(vs: seq<real>): (r: seq<real>)
    ensures |r| <= |vs|
    ensures Sentinel !in r
  {
    if |vs| == 0 then []
    else ValidOf(vs[..|vs| - 1]) + (if vs[|vs| - 1] != Sentinel then [vs[|vs| - 1]] else [])
  }

  /** The values counted as bad: every occurrence of the sentinel, in order. */
  function BadOf(vs: seq<real>): (r: seq<real>)
    ensures |r| <= |vs|
    ensures forall i :: 0 <= i < |r| ==> r[i] == Sentinel
  {
    if |vs| == 0 then []
    else BadOf(vs[..|vs| - 1]) + (if vs[|vs| - 1] == Sentinel then [vs[|vs| - 1]] else [])
  }

  /** How many of the values the chain puts in bucket `b`. The chain is not
      guarded by the sentinel test, so a sentinel is counted too (in Above38). */
  function CountIn(vs: seq<real>, b: Bucket): (n: nat)
    ensures n <= |vs|
  {
    if |vs| == 0 then 0
    else CountIn(vs[..|vs| - 1], b) + (if Classify(vs[|vs| - 1]) == b then 1 else 0)
  }

  /** The sum of the nine bucket counts. */
  function TotalCount(vs: seq<real>): nat {
    CountIn(vs, Superstorm) + CountIn(vs, IntenseStorm) + CountIn(vs, ModerateStorm)
    + CountIn(vs, WeakStorm) + CountIn(vs, BelowAverage) + CountIn(vs, Average)
    + CountIn(vs, AboveAverage) + CountIn(vs, FarAboveAverage) + CountIn(vs, Above38)
  }

  /** `max(list)`: absent for an empty list, where the original raises. */
  function MaxOf(s: seq<real>): (m: Option<real>)
    ensures m.None? <==> |s| == 0
    ensures m.Some? ==> m.value in s && forall i :: 0 <= i < |s| ==> s[i] <= m.value
  {
    if |s| == 0 then None
    else
      match MaxOf(s[1..])
      case None => Some(s[0])
      case Some(rest) => Some(if rest > s[0] then rest else s[0])
  }

  /** `min(list)`: absent for an empty list, where the original raises. */
  function MinOf(s: seq<real>): (m: Option<real>)
    ensures m.None? <==> |s| == 0
    ensures m.Some? ==> m.value in s && forall i :: 0 <= i < |s| ==> m.value <= s[i]
  {
    if |s| == 0 then None
    else
      match MinOf(s[1..])
      case None => Some(s[0])
      case Some(rest) => Some(if rest < s[0] then rest else s[0])
  }

  lemma ListsSnoc(vs: seq<real>, v: real)
    ensures ValidOf(vs + [v]) == ValidOf(vs) + (if v != Sentinel then [v] else [])
    ensures BadOf(vs + [v]) == BadOf(vs) + (if v == Sentinel then [v] else [])
  {
    assert (vs + [v])[..|vs|] == vs;
  }

  lemma CountSnoc(vs: seq<real>, v: real, b: Bucket)
    ensures CountIn(vs + [v], b) == CountIn(vs, b) + (if Classify(v) == b then 1 else 0)
  {
    assert (vs + [v])[..|vs|] == vs;
  }

  /** Every value goes to exactly one of the two lists: together they hold
      the column's values, each as often as it occurs. */
  lemma ValidBadPartition(vs: seq<real>)
    ensures multiset(ValidOf(vs)) + multiset(BadOf(vs)) == multiset(vs)
    ensures |ValidOf(vs)| + |BadOf(vs)| == |vs|
  {
    ValidBadMultiset(vs);
    assert |multiset(ValidOf(vs)) + multiset(BadOf(vs))| == |multiset(vs)|;
  }

  lemma {:induction false} ValidBadMultiset(vs: seq<real>)
    ensures multiset(ValidOf(vs)) + multiset(BadOf(vs)) == multiset(vs)
  {
    if |vs| > 0 {
      var init, last := vs[..|vs| - 1], vs[|vs| - 1];
      ValidBadMultiset(init);
      assert init + [last] == vs;
      ListsSnoc(init, last);
      var valid, bad := ValidOf(init), BadOf(init);
      assert multiset(vs) == multiset(init) + multiset{last};
      if last == Sentinel {
        assert ValidOf(vs) == valid && BadOf(vs) == bad + [last];
        assert multiset(bad + [last]) == multiset(bad) + multiset{last};
      } else {
        assert ValidOf(vs) == valid + [last] && BadOf(vs) == bad;
        assert multiset(valid + [last]) == multiset(valid) + multiset{last};
      }
    }
  }

  /** A value is in the valid list exactly when it is one of the column's
      values and not the sentinel. */
  lemma {:induction false} ValidMembers(vs: seq<real>, x: real)
    ensures x in ValidOf(vs) <==> x in vs && x != Sentinel
  {
    if |vs| > 0 {
      var init, last := vs[..|vs| - 1], vs[|vs| - 1];
      ValidMembers(init, x);
      assert init + [last] == vs;
      ListsSnoc(init, last);
    }
  }

  /** Exactly one counter moves per value, so the nine counts add up to the
      number of values, bad ones included. */
  lemma {:induction false} CountsSumToRows(vs: seq<real>)
    ensures TotalCount(vs) == |vs|
  {
    if |vs| > 0 {
      var init, last := vs[..|vs| - 1], vs[|vs| - 1];
      CountsSumToRows(init);
      assert init + [last] == vs;
      CountSnoc(init, last, Superstorm);  CountSnoc(init, last, IntenseStorm);
      CountSnoc(init, last, ModerateStorm);  CountSnoc(init, last, WeakStorm);
      CountSnoc(init, last, BelowAverage);  CountSnoc(init, last, Average);
      CountSnoc(init, last, AboveAverage);  CountSnoc(init, last, FarAboveAverage);
      CountSnoc(init, last, Above38);
    }
  }

  /** The sentinel lies above every threshold, so each bad value is also
      counted in Above38. */
  lemma {:induction false} BadCountedAsAbove38(vs: seq<real>)
    ensures Classify(Sentinel) == Above38
    ensures |BadOf(vs)| <= CountIn(vs, Above38)
  {
    if |vs| > 0 {
      var init, last := vs[..|vs| - 1], vs[|vs| - 1];
      BadCountedAsAbove38(init);
      assert init + [last] == vs;
      CountSnoc(init, last, Above38);
    }
  }

  /** The reported maximum and minimum are taken over the valid values only:
      they exist exactly when some value is not the sentinel, they are such
      values, and they bound every such value. */
  lemma ExtremesIgnoreBad(vs: seq<real>)
    ensures MaxOf(ValidOf(vs)).Some? <==> exists i :: 0 <= i < |vs| && vs[i] != Sentinel
    ensures MinOf(ValidOf(vs)).Some? <==> exists i :: 0 <= i < |vs| && vs[i] != Sentinel
    ensures MaxOf(ValidOf(vs)).Some? ==>
      var m := MaxOf(ValidOf(vs)).value;
      m != Sentinel && m in vs && forall i :: 0 <= i < |vs| && vs[i] != Sentinel ==> vs[i] <= m
    ensures MinOf(ValidOf(vs)).Some? ==>
      var m := MinOf(ValidOf(vs)).value;
      m != Sentinel && m in vs && forall i :: 0 <= i < |vs| && vs[i] != Sentinel ==> m <= vs[i]
  {
    var valid := ValidOf(vs);
    forall i | 0 <= i < |vs| && vs[i] != Sentinel
      ensures vs[i] in valid
    {
      ValidMembers(vs, vs[i]);
    }
    if |valid| > 0 {
      ValidMembers(vs, valid[0]);
      ValidMembers(vs, MaxOf(valid).value);
      ValidMembers(vs, MinOf(valid).value);
    }
  }

  // ---------------------------------------------------------------------
  // Reading rows

  /** Why a run stops: a row too short for one of the positions (an index
      error in the original) or a field that does not parse as a number.
      `line` is the row's index in the dataset, the header being line 0. */
  datatype RowError = FieldMissing(line: nat, pos: nat) | NotANumber(line: nat, pos: nat)

  /** The three values read from one data row. */
  datatype Reading = Reading(dst: real, hon: real, sjg: real)

  /** The column selector used to project readings. */
  datatype Column = Dst | Hon | Sjg

  function Value(r: Reading, c: Column): real {
    match c
    case Dst => r.dst
    case Hon => r.hon
    case Sjg => r.sjg
  }

  /** One column of a sequence of readings. */
  function ColumnValues(rs: seq<Reading>, c: Column): (vs: seq<real>)
    ensures |vs| == |rs| && forall i :: 0 <= i < |rs| ==> vs[i] == Value(rs[i], c)
  {
    seq(|rs|, i requires 0 <= i < |rs| => Value(rs[i], c))
  }

  /** `float(fields[pos])`, failing when the row is too short or the field
      does not parse. */
  function ReadField(fields: seq<string>, pos: nat, line: nat, parse: string -> Option<real>)
    : (r: Result<real, RowError>)
    ensures r.Success? <==> pos < |fields| && parse(fields[pos]).Some?
    ensures r.Success? ==> r.value == parse(fields[pos]).value
    ensures r.Failure? ==> r.error.line == line && r.error.pos == pos
    ensures r.Failure? ==> (r.error.FieldMissing? <==> |fields| <= pos)
  {
    if pos >= |fields| then Failure(FieldMissing(line, pos))
    else match parse(fields[pos])
      case None => Failure(NotANumber(line, pos))
      case Some(v) => Success(v)
  }

  /** Split a stored line at single spaces and read its three fields in the
      order the original evaluates them: Dst, then HON, then SJG. */
  function ReadRow(text: string, line: nat, parse: string -> Option<real>): (r: Result<Reading, RowError>)
    ensures r.Failure? ==> r.error.line == line
    ensures r.Failure? ==> r.error.pos == DstPos || r.error.pos == HonPos || r.error.pos == SjgPos
    ensures r.Failure? ==>
      var failed := ReadField(Split(text), r.error.pos, line, parse);
      failed.Failure? && failed.error == r.error
    ensures r.Failure? && r.error.pos != DstPos ==> ReadField(Split(text), DstPos, line, parse).Success?
    ensures r.Failure? && r.error.pos == SjgPos ==> ReadField(Split(text), HonPos, line, parse).Success?
  {
    var fields := Split(text);
    var dst :- ReadField(fields, DstPos, line, parse);
    var hon :- ReadField(fields, HonPos, line, parse);
    var sjg :- ReadField(fields, SjgPos, line, parse);
    Success(Reading(dst, hon, sjg))
  }

  /** Read every data row in order; the first failing row aborts the whole
      run. `data[k]` is line `k + 1` of the dataset. */
  function ReadAll(data: seq<string>, parse: string -> Option<real>): (r: Result<seq<Reading>, RowError>)
    ensures r.Success? ==> |r.value| == |data|
  {
    if |data| == 0 then Success([])
    else
      var earlier :- ReadAll(data[..|data| - 1], parse);
      var last :- ReadRow(data[|data| - 1], |data|, parse);
      Success(earlier + [last])
  }

  /** The rows `dataParser` works on: all but the header. */
  function JustData(dataset: seq<string>): (data: seq<string>)
    ensures |dataset| == 0 ==> data == []
    ensures |dataset| > 0 ==>
      |data| == |dataset| - 1 && forall k :: 0 <= k < |data| ==> data[k] == dataset[k + 1]
  {
    if |dataset| == 0 then [] else dataset[1..]
  }

  /** A row is read exactly when it has at least twelve fields and its Dst,
      HON and SJG fields parse; the reading then holds those values. */
  lemma ReadRowSucceeds(text: string, line: nat, parse: string -> Option<real>)
    ensures var fields := Split(text);
      ReadRow(text, line, parse).Success? <==>
        |fields| >= 12 && parse(fields[DstPos]).Some? && parse(fields[HonPos]).Some?
        && parse(fields[SjgPos]).Some?
    ensures var fields := Split(text);
      ReadRow(text, line, parse).Success? ==>
        ReadRow(text, line, parse).value
          == Reading(parse(fields[DstPos]).value, parse(fields[HonPos]).value, parse(fields[SjgPos]).value)
  {
  }

  /** The run succeeds exactly when every row can be read, and then produces
      one reading per row, in order. */
  lemma {:induction false} ReadAllSucceeds(data: seq<string>, parse: string -> Option<real>)
    ensures ReadAll(data, parse).Success? <==>
      forall k :: 0 <= k < |data| ==> ReadRow(data[k], k + 1, parse).Success?
    ensures ReadAll(data, parse).Success? ==>
      forall k :: 0 <= k < |data| ==> ReadAll(data, parse).value[k] == ReadRow(data[k], k + 1, parse).value
  {
    if |data| > 0 {
      var init := data[..|data| - 1];
      ReadAllSucceeds(init, parse);
      assert forall k :: 0 <= k < |init| ==> init[k] == data[k];
    }
  }

  /** Once a prefix of the rows fails, the whole run fails with that error. */
  lemma {:induction false} FirstErrorStops(data: seq<string>, k: nat, parse: string -> Option<real>)
    requires k <= |data|
    requires ReadAll(data[..k], parse).Failure?
    ensures ReadAll(data, parse) == ReadAll(data[..k], parse)
  {
    if k < |data| {
      var init := data[..|data| - 1];
      assert init[..k] == data[..k];
      FirstErrorStops(init, k, parse);
    } else {
      assert data[..k] == data;
    }
  }

  // ---------------------------------------------------------------------
  // One column's accumulators

  /** Max, min, bad count and valid count, as the report prints them. */
  datatype ColumnSummary = ColumnSummary(max: Option<real>, min: Option<real>, badCount: nat, validCount: nat)

  /** The nine bucket counters, the valid list and the bad list of one column. */
  class ColumnStats {
    var superstorm: nat
    var intenseStorm: nat
    var moderateStorm: nat
    var weakStorm: nat
    var belowAverage: nat
    var average: nat
    var aboveAverage: nat
    var farAboveAverage: nat
    var above38: nat
    var valid: seq<real>
    var bad: seq<real>

    /** The counter of bucket `b`. */
    function Count(b: Bucket): nat
      reads this
    {
      match b
      case Superstorm => superstorm
      case IntenseStorm => intenseStorm
      case ModerateStorm => moderateStorm
      case WeakStorm => weakStorm
      case BelowAverage => belowAverage
      case Average => average
      case AboveAverage => aboveAverage
      case FarAboveAverage => farAboveAverage
      case Above38 => above38
    }

    /** The accumulators hold what the values `vs` should have produced. */
    ghost predicate Describes(vs: seq<real>)
      reads this
    {
      valid == ValidOf(vs) && bad == BadOf(vs) && forall b :: Count(b) == CountIn(vs, b)
    }

    /** Empty lists and zero counters. */
    constructor ()
      ensures Describes([])
    {
      superstorm, intenseStorm, moderateStorm := 0, 0, 0;
      weakStorm, belowAverage, average := 0, 0, 0;
      aboveAverage, farAboveAverage, above38 := 0, 0, 0;
      valid, bad := [], [];
    }

    /** The sentinel test: append a value to the valid list, or the sentinel
        to the bad list. The counters are not touched. */
    method Route(v: real, ghost vs: seq<real>)
      requires valid == ValidOf(vs) && bad == BadOf(vs)
      modifies this
      ensures valid == old(valid) + (if v != Sentinel then [v] else [])
      ensures bad == old(bad) + (if v == Sentinel then [v] else [])
      ensures valid == ValidOf(vs + [v]) && bad == BadOf(vs + [v])
      ensures forall b :: Count(b) == old(Count(b))
    {
      ListsSnoc(vs, v);
      if v != Sentinel {
        valid := valid + [v];
      } else {
        bad := bad + [v];
      }
    }

    /** The bucket chain: increment the one counter of the value's bucket.
        There is no sentinel test here, as in the original. */
    method Tally(v: real, ghost vs: seq<real>)
      requires forall b :: Count(b) == CountIn(vs, b)
      modifies this
      ensures forall b :: Count(b) == old(Count(b)) + (if Classify(v) == b then 1 else 0)
      ensures forall b :: Count(b) == CountIn(vs + [v], b)
      ensures valid == old(valid) && bad == old(bad)
    {
      forall b ensures CountIn(vs + [v], b) == CountIn(vs, b) + (if Classify(v) == b then 1 else 0) {
        CountSnoc(vs, v, b);
      }
      match Classify(v)
      case Superstorm => superstorm := superstorm + 1;
      case IntenseStorm => intenseStorm := intenseStorm + 1;
      case ModerateStorm => moderateStorm := moderateStorm + 1;
      case WeakStorm => weakStorm := weakStorm + 1;
      case BelowAverage => belowAverage := belowAverage + 1;
      case Average => average := average + 1;
      case AboveAverage => aboveAverage := aboveAverage + 1;
      case FarAboveAverage => farAboveAverage := farAboveAverage + 1;
      case Above38 => above38 := above38 + 1;
    }

    /** Both steps for one value of this column: the sentinel test, then the
        bucket chain. */
    method Record(v: real, ghost vs: seq<real>)
      requires Describes(vs)
      modifies this
      ensures valid == old(valid) + (if v != Sentinel then [v] else [])
      ensures bad == old(bad) + (if v == Sentinel then [v] else [])
      ensures forall b :: Count(b) == old(Count(b)) + (if Classify(v) == b then 1 else 0)
      ensures Describes(vs + [v])
    {
      Route(v, vs);
      Tally(v, vs);
    }

    /** Max, min, bad count and valid count of this column. Max and min are
        absent exactly when the valid list is empty; otherwise they are valid
        values bounding every valid value. */
    function Summary(): (s: ColumnSummary)
      reads this
      ensures s.validCount == |valid| && s.badCount == |bad|
      ensures s.max.None? <==> |valid| == 0
      ensures s.min.None? <==> |valid| == 0
      ensures s.max.Some? ==> s.max.value in valid && forall i :: 0 <= i < |valid| ==> valid[i] <= s.max.value
      ensures s.min.Some? ==> s.min.value in valid && forall i :: 0 <= i < |valid| ==> s.min.value <= valid[i]
    {
      ColumnSummary(MaxOf(valid), MinOf(valid), |bad|, |valid|)
    }
  }

  /** What the report says about a column fed the values `vs`: the bucket
      counts add up to the number of rows, valid and bad counts too, and the
      extrema are over the non-sentinel values only. */
  lemma ReportedColumn(c: ColumnStats, vs: seq<real>)
    requires c.Describes(vs)
    ensures c.superstorm + c.intenseStorm + c.moderateStorm + c.weakStorm + c.belowAverage
      + c.average + c.aboveAverage + c.farAboveAverage + c.above38 == |vs|
    ensures c.Summary().validCount + c.Summary().badCount == |vs|
    ensures c.Summary().badCount <= c.above38
    ensures c.Summary().max.Some? <==> exists i :: 0 <= i < |vs| && vs[i] != Sentinel
    ensures c.Summary().max.Some? ==>
      (c.Summary().min.Some? &&
       var (max, min) := (c.Summary().max.value, c.Summary().min.value);
       max != Sentinel && min != Sentinel && max in vs && min in vs &&
       forall i :: 0 <= i < |vs| && vs[i] != Sentinel ==> min <= vs[i] <= max)
  {
    CountsSumToRows(vs);
    assert forall b :: c.Count(b) == CountIn(vs, b);
    assert c.above38 == c.Count(Above38);
    ValidBadPartition(vs);
    BadCountedAsAbove38(vs);
    ExtremesIgnoreBad(vs);
  }

  // ---------------------------------------------------------------------
  // The whole pass

  /** The three columns' accumulators after a successful pass. */
  datatype Columns = Columns(dst: ColumnStats, hon: ColumnStats, sjg: ColumnStats)

  /** Drops the header and processes every data row in order: split, read
      the three fields, route and count each value. A row that cannot be read
      aborts the pass with the first such error; otherwise each column's
      accumulators describe that column of every data row. */
  method Aggregate(dataset: seq<string>, parse: string -> Option<real>)
    returns (result: Result<Columns, RowError>)
    ensures result.Failure? <==> ReadAll(JustData(dataset), parse).Failure?
    ensures result.Failure? ==> result.error == ReadAll(JustData(dataset), parse).error
    ensures result.Success? ==>
      var rs := ReadAll(JustData(dataset), parse).value;
      result.value.dst.Describes(ColumnValues(rs, Dst))
      && result.value.hon.Describes(ColumnValues(rs, Hon))
      && result.value.sjg.Describes(ColumnValues(rs, Sjg))
    ensures result.Success? ==>
      fresh(result.value.dst) && fresh(result.value.hon) && fresh(result.value.sjg)
      && result.value.dst != result.value.hon && result.value.dst != result.value.sjg
      && result.value.hon != result.value.sjg
  {
    var justData := JustData(dataset);
    var dst := new ColumnStats();
    var hon := new ColumnStats();
    var sjg := new ColumnStats();
    ghost var readings: seq<Reading> := [];
    var i := 0;
    while i < |justData|
      invariant 0 <= i <= |justData|
      invariant dst != hon && dst != sjg && hon != sjg
      invariant ReadAll(justData[..i], parse) == Success(readings)
      invariant dst.Describes(ColumnValues(readings, Dst))
      invariant hon.Describes(ColumnValues(readings, Hon))
      invariant sjg.Describes(ColumnValues(readings, Sjg))
    {
      var row := ReadRow(justData[i], i + 1, parse);
      if row.Failure? {
        result := Failure(row.error);
        Abort(justData, i, readings, parse);
        return;
      }
      var reading := row.value;
      Extend(justData, i, readings, reading, parse);
      ghost var dsts, hons, sjgs :=
        ColumnValues(readings, Dst), ColumnValues(readings, Hon), ColumnValues(readings, Sjg);

      dst.Record(reading.dst, dsts);
      hon.Record(reading.hon, hons);
      sjg.Record(reading.sjg, sjgs);
      readings := readings + [reading];
      i := i + 1;
    }
    assert justData[..i] == justData;
    result := Success(Columns(dst, hon, sjg));
  }

  /** The row just read extends the readings of the rows before it. */
  lemma Extend(data: seq<string>, i: nat, readings: seq<Reading>, r: Reading, parse: string -> Option<real>)
    requires i < |data|
    requires ReadAll(data[..i], parse) == Success(readings)
    requires ReadRow(data[i], i + 1, parse) == Success(r)
    ensures ReadAll(data[..i + 1], parse) == Success(readings + [r])
    ensures ColumnValues(readings + [r], Dst) == ColumnValues(readings, Dst) + [r.dst]
    ensures ColumnValues(readings + [r], Hon) == ColumnValues(readings, Hon) + [r.hon]
    ensures ColumnValues(readings + [r], Sjg) == ColumnValues(readings, Sjg) + [r.sjg]
  {
    assert data[..i + 1][..i] == data[..i];
    ColumnSnocValues(readings, r, Dst);
    ColumnSnocValues(readings, r, Hon);
    ColumnSnocValues(readings, r, Sjg);
  }

  lemma ColumnSnocValues(readings: seq<Reading>, r: Reading, c: Column)
    ensures ColumnValues(readings + [r], c) == ColumnValues(readings, c) + [Value(r, c)]
  {
  }

  /** The row just rejected makes the whole pass fail with its error. */
  lemma Abort(data: seq<string>, i: nat, readings: seq<Reading>, parse: string -> Option<real>)
    requires i < |data|
    requires ReadAll(data[..i], parse) == Success(readings)
    requires ReadRow(data[i], i + 1, parse).Failure?
    ensures ReadAll(data, parse) == Failure(ReadRow(data[i], i + 1, parse).error)
  {
    assert data[..i + 1][..i] == data[..i];
    FirstErrorStops(data, i + 1, parse);
  }
}
