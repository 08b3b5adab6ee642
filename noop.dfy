/**
 * collection_noop.go: a collection that stores nothing and only counts.
 * The lock around the counter is left out, and so is the channel `Rows`
 * streams through: here it returns the rows it would send.
 */
module Noop {
  import opened Rows
  import opened Wrappers
  import opened Wire

  /** The row `Rows` sends over and over: empty key, empty value. */
  function EmptyRow(): (r: Row)
    ensures r.key.b == [] && r.value.b == []
  {
    Row(RowKey([]), RowValue([]))
  }

  class NoopCollection {
    /** How many rows the collection claims to hold. */
    var n: nat

    /** `NewNoopCollection()`: empty, and creation never fails. */
    constructor ()
      ensures n == 0
    {
      n := 0;
    }

    /** `Close(force)`: nothing to release; never fails. */
    method Close(force: bool) returns (err: Option<string>)
      ensures err == None
    {
      err := None;
    }

    /** `Rows()`: exactly `n` rows, each with an empty key and an empty value. */
    method Rows() returns (rows: seq<Row>)
      ensures |rows| == n
      ensures forall i :: 0 <= i < |rows| ==> rows[i] == EmptyRow()
    {
      var count := n;
      var row := EmptyRow();
      rows := [];
      for i := 0 to count
        invariant |rows| == i
        invariant forall j :: 0 <= j < i ==> rows[j] == EmptyRow()
      {
        rows := rows + [row];
      }
    }

    /** `Set(rows)`: counts the rows of the batch; never fails. */
    method Set(rows: seq<Row>) returns (err: Option<string>)
      modifies this
      ensures n == old(n) + |rows|
      ensures err == None
    {
      n := n + |rows|;
      err := None;
    }

    /** `Delete(k)`: one row fewer, but never below zero; the key is ignored. */
    method Delete(k: RowKey) returns (err: Option<string>)
      modifies this
      ensures old(n) > 0 ==> n == old(n) - 1
      ensures old(n) == 0 ==> n == 0
      ensures err == None
    {
      if n > 0 {
        n := n - 1;
      }
      err := None;
    }

    /**
     * `Timing()`: counts the rows `Rows` sends and reports how long that
     * took; the clock reading is the input `took`.
     */
    method Timing(took: Nanos) returns (count: nat, t: Nanos)
      ensures count == n && t == took
    {
      var rows := Rows();
      count := 0;
      for i := 0 to |rows|
        invariant count == i
      {
        count := count + 1;
      }
      t := took;
    }
  }

  /**
   * A scenario from the collection's life: after storing batches of the
   * given sizes and deleting `deletes` keys, `Timing` counts the stored rows
   * minus the deletes, never going below zero.
   */
  method StoreThenDelete(batches: seq<seq<Row>>, deletes: nat) returns (count: nat)
    ensures count == if Total(batches) >= deletes then Total(batches) - deletes else 0
  {
    var c := new NoopCollection();
    for i := 0 to |batches|
      invariant c.n == Total(batches[..i])
    {
      assert batches[..i + 1] == batches[..i] + [batches[i]];
      TotalSnoc(batches[..i], batches[i]);
      var _ := c.Set(batches[i]);
    }
    assert batches[..|batches|] == batches;
    for j := 0 to deletes
      invariant c.n == if Total(batches) >= j then Total(batches) - j else 0
    {
      var _ := c.Delete(RowKey([]));
    }
    var t;
    count, t := c.Timing(0);
  }

  /** The rows in a list of batches. */
  function Total(batches: seq<seq<Row>>): nat
  {
    if batches == [] then 0 else Total(batches[..|batches| - 1]) + |batches[|batches| - 1]|
  }

  lemma TotalSnoc(batches: seq<seq<Row>>, b: seq<Row>)
    ensures Total(batches + [b]) == Total(batches) + |b|
  {
    assert (batches + [b])[..|batches|] == batches;
  }
}
