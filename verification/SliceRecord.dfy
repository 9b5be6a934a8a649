/** The pids of the last hundred slices, which the schedulers of Chinux and tpesoGuia keep in a ring. */
module SliceRecord {
  const SLICES: nat := 100

  /** The record, and where the next pid goes. */
  datatype Record = Record(last: seq<int>, counter: nat)

  predicate Valid(r: Record) {
    |r.last| == SLICES && r.counter < SLICES
  }

  /** One more slice. */
  function Noted(r: Record, pid: nat): (r': Record)
    requires Valid(r)
    ensures Valid(r')
  {
    Record(r.last[r.counter := pid], (r.counter + 1) % SLICES)
  }

  /** The record after the pids in `ran` have run. */
  function NotedAll(r: Record, ran: seq<nat>): (r': Record)
    requires Valid(r)
    ensures Valid(r')
  {
    if ran == [] then r else Noted(NotedAll(r, ran[..|ran|-1]), ran[|ran|-1])
  }

  /** The record holds the last hundred pids that ran, the latest one just behind the place of the next. */
  lemma {:induction false} HoldsTheLastHundred(r: Record, ran: seq<nat>, back: nat)
    requires Valid(r) && back < SLICES && back < |ran|
    ensures var r' := NotedAll(r, ran); r'.last[(r'.counter + SLICES - 1 - back) % SLICES] == ran[|ran|-1-back]
  {
    if back > 0 {
      var less := ran[..|ran|-1];
      HoldsTheLastHundred(r, less, back - 1);
      var c := NotedAll(r, less).counter;
      assert ((c + 1) % SLICES + SLICES - 1 - back) % SLICES == (c + SLICES - 1 - (back - 1)) % SLICES != c;
    }
  }
}
