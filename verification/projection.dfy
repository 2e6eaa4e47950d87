/**
 How `select_table` chooses and prints fields: the positions of the header
 columns a statement names, and the ` value |` rendering of a row.
 */
module Projection {
  import opened Text

  /** `n` copies of `x`. */
  function Repeat(x: nat, n: nat): (r: seq<nat>)
    ensures |r| == n
    ensures forall k :: 0 <= k < n ==> r[k] == x
  {
    if n == 0 then [] else Repeat(x, n - 1) + [x]
  }

  lemma {:induction false} RepeatCounts(x: nat, n: nat, y: nat)
    ensures multiset(Repeat(x, n))[y] == if y == x then n else 0
  {
    if n > 0 {
      RepeatCounts(x, n - 1, y);
      assert multiset(Repeat(x, n)) == multiset(Repeat(x, n - 1)) + multiset{x};
    }
  }

  predicate Ascending(idx: seq<nat>) {
    forall a, b :: 0 <= a < b < |idx| ==> idx[a] <= idx[b]
  }

  /**
   The positions `select_table` collects: header position `i` once for every
   requested column equal to the header's name at `i`, positions in header
   order.
   */
  function ColIndex(header: seq<string>, columns: seq<string>): (idx: seq<nat>)
    ensures forall k :: 0 <= k < |idx| ==> idx[k] < |header|
    decreases |header|
  {
    if |header| == 0 then []
    else
      var last := |header| - 1;
      ColIndex(header[..last], columns) + Repeat(last, multiset(columns)[header[last]])
  }

  /** The positions come in header order. */
  lemma {:induction false} ColIndexAscending(header: seq<string>, columns: seq<string>)
    ensures Ascending(ColIndex(header, columns))
  {
    if |header| > 0 {
      var last := |header| - 1;
      ColIndexAscending(header[..last], columns);
      var front := ColIndex(header[..last], columns);
      var more := Repeat(last, multiset(columns)[header[last]]);
      var idx := front + more;
      forall a, b | 0 <= a < b < |idx|
        ensures idx[a] <= idx[b]
      {
        if b < |front| {
          assert idx[a] == front[a] && idx[b] == front[b];
        } else if a < |front| {
          assert idx[a] == front[a] < last;
        }
      }
    }
  }

  lemma ColIndexCountsStep(header: seq<string>, prefix: seq<string>, columns: seq<string>, i: nat)
    requires |header| > 0 && prefix == header[..|header| - 1]
    requires forall j :: 0 <= j < |prefix| ==> multiset(ColIndex(prefix, columns))[j] == multiset(columns)[prefix[j]]
    ensures i < |header| ==> multiset(ColIndex(header, columns))[i] == multiset(columns)[header[i]]
  {
    var last := |header| - 1;
    var front := ColIndex(prefix, columns);
    var more := Repeat(last, multiset(columns)[header[last]]);
    assert multiset(ColIndex(header, columns)) == multiset(front) + multiset(more);
    RepeatCounts(last, multiset(columns)[header[last]], i);
    if i >= last {
      assert i !in front;
    } else {
      assert header[..last][i] == header[i];
    }
  }

  /**
   Header position `i` is chosen exactly as often as its name occurs among
   the requested columns, and nothing past the header is chosen.
   */
  lemma {:induction false} ColIndexCounts(header: seq<string>, columns: seq<string>)
    ensures forall i :: 0 <= i < |header| ==> multiset(ColIndex(header, columns))[i] == multiset(columns)[header[i]]
    ensures forall i :: i >= |header| ==> multiset(ColIndex(header, columns))[i] == 0
  {
    if |header| > 0 {
      var last := |header| - 1;
      ColIndexCounts(header[..last], columns);
      forall i: nat
        ensures i < |header| ==> multiset(ColIndex(header, columns))[i] == multiset(columns)[header[i]]
      {
        ColIndexCountsStep(header, header[..last], columns, i);
      }
      forall i | i >= |header|
        ensures multiset(ColIndex(header, columns))[i] == 0
      {
        assert i !in ColIndex(header, columns);
      }
    }
  }

  /** Every chosen position names a requested column, and every requested column in the header is chosen. */
  lemma ColIndexNames(header: seq<string>, columns: seq<string>)
    ensures forall k :: 0 <= k < |ColIndex(header, columns)| ==> header[ColIndex(header, columns)[k]] in columns
    ensures forall i :: 0 <= i < |header| && header[i] in columns ==> i in ColIndex(header, columns)
  {
    var idx := ColIndex(header, columns);
    ColIndexCounts(header, columns);
    forall k | 0 <= k < |idx|
      ensures header[idx[k]] in columns
    {
      assert multiset(idx)[idx[k]] > 0;
    }
  }

  /** The positions `0, 1, ..., n - 1`. */
  function Upto(n: nat): (r: seq<nat>)
    ensures |r| == n
    ensures forall k :: 0 <= k < n ==> r[k] == k
  {
    if n == 0 then [] else Upto(n - 1) + [n - 1]
  }

  /** When every header name is requested exactly once, every position is chosen once, in order. */
  lemma {:induction false} ColIndexEachOnce(header: seq<string>, columns: seq<string>)
    requires forall i :: 0 <= i < |header| ==> multiset(columns)[header[i]] == 1
    ensures ColIndex(header, columns) == Upto(|header|)
  {
    if |header| > 0 {
      var last := |header| - 1;
      assert forall i :: 0 <= i < last ==> header[..last][i] == header[i];
      ColIndexEachOnce(header[..last], columns);
      assert multiset(columns)[header[last]] == 1;
      assert Repeat(last, 1) == [last];
    }
  }

  /** The index loop of `select_table`: for each header position, one pass over the requested columns. */
  method ComputeColIndex(header: seq<string>, columns: seq<string>) returns (idx: seq<nat>)
    ensures idx == ColIndex(header, columns)
  {
    idx := [];
    var i := 0;
    while i < |header|
      invariant 0 <= i <= |header|
      invariant idx == ColIndex(header[..i], columns)
    {
      var k := 0;
      while k < |columns|
        invariant 0 <= k <= |columns|
        invariant idx == ColIndex(header[..i], columns) + Repeat(i, multiset(columns[..k])[header[i]])
      {
        assert columns[..k + 1] == columns[..k] + [columns[k]];
        if columns[k] == header[i] {
          idx := idx + [i];
        }
        k := k + 1;
      }
      assert columns[..k] == columns;
      assert header[..i + 1][..i] == header[..i];
      i := i + 1;
    }
    assert header[..i] == header;
  }

  /** The fields of `record` at the chosen positions, or None when a position lies past its end. */
  function Project(record: seq<string>, idx: seq<nat>): (r: Option<seq<string>>)
    ensures r.Some? <==> forall k :: 0 <= k < |idx| ==> idx[k] < |record|
    ensures r.Some? ==> |r.value| == |idx| && forall k :: 0 <= k < |idx| ==> r.value[k] == record[idx[k]]
  {
    if |idx| == 0 then Some([])
    else if idx[0] >= |record| then None
    else
      match Project(record, idx[1..])
      case None => None
      case Some(tail) =>
        assert forall k :: 1 <= k < |idx| ==> idx[k] == idx[1..][k - 1];
        Some([record[idx[0]]] + tail)
  }

  /** Choosing every position in order gives the record back. */
  lemma ProjectEvery(record: seq<string>)
    ensures Project(record, Upto(|record|)) == Some(record)
  {
    var r := Project(record, Upto(|record|));
    assert r.Some?;
    assert r.value == record;
  }

  /** `print!(" {} |", field)`. */
  function RenderField(field: string): (r: string)
    ensures |r| == |field| + 3 && r[0] == ' ' && r[1..|r| - 2] == field && r[|r| - 2..] == " |"
  {
    " " + field + " |"
  }

  /** One printed row: each field rendered in turn; `println!()` ends the line. */
  function RenderRow(fields: seq<string>): (r: string)
    ensures r == "" <==> fields == []
    ensures fields != [] ==> r[0] == ' ' && r[|r| - 1] == '|'
  {
    if |fields| == 0 then "" else RenderField(fields[0]) + RenderRow(fields[1..])
  }

  /** Each field with the one blank `select_table` prints on either side. */
  function Padded(fields: seq<string>): (p: seq<string>)
    ensures |p| == |fields|
    ensures forall k :: 0 <= k < |fields| ==> p[k] == " " + fields[k] + " "
  {
    if |fields| == 0 then [] else [" " + fields[0] + " "] + Padded(fields[1..])
  }

  predicate NoBar(fields: seq<string>) {
    forall k :: 0 <= k < |fields| ==> '|' !in fields[k]
  }

  /** Splitting a printed row at `|` gives back each padded field and a final empty piece. */
  lemma {:induction false} RenderRowSplit(fields: seq<string>)
    requires NoBar(fields)
    ensures Split(RenderRow(fields), '|') == Padded(fields) + [""]
  {
    if |fields| == 0 {
      assert Split("", '|') == [""];
    } else {
      var head := " " + fields[0] + " ";
      assert '|' !in head by {
        assert forall i :: 0 <= i < |head| && head[i] == '|' ==> fields[0][i - 1] == '|';
      }
      assert NoBar(fields[1..]) by {
        assert forall k :: 0 <= k < |fields| - 1 ==> fields[1..][k] == fields[k + 1];
      }
      RenderRowSplit(fields[1..]);
      RenderRowCons(fields);
      SplitAround(head, RenderRow(fields[1..]), '|');
      SplitAfterPlainPrefix(head, "", '|');
      assert head + "" == head;
      assert Split("", '|') == [""];
      assert Split(head, '|') == [head];
      assert Padded(fields) == [head] + Padded(fields[1..]);
    }
  }

  /** A nonempty row is its first padded field, a `|`, and the rest of the row. */
  lemma RenderRowCons(fields: seq<string>)
    requires |fields| > 0
    ensures RenderRow(fields) == (" " + fields[0] + " ") + "|" + RenderRow(fields[1..])
  {
  }

  /** Different rows are printed differently, as long as no field holds a `|`. */
  lemma RenderRowInjective(a: seq<string>, b: seq<string>)
    requires NoBar(a) && NoBar(b)
    requires RenderRow(a) == RenderRow(b)
    ensures a == b
  {
    RenderRowSplit(a);
    RenderRowSplit(b);
    var pa := Padded(a);
    var pb := Padded(b);
    assert |pa + [""]| == |pb + [""]|;
    assert pa == (pa + [""])[..|pa|];
    assert pb == (pb + [""])[..|pb|];
    forall k | 0 <= k < |a|
      ensures a[k] == b[k]
    {
      assert pa[k] == pb[k];
      assert a[k] == pa[k][1..|pa[k]| - 1];
      assert b[k] == pb[k][1..|pb[k]| - 1];
    }
  }
}
