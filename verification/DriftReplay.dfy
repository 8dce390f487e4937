/** Replaying a price file: the rows it feeds to the drift loop never lose their
    features once they have them. */
module DriftReplay {
  import opened Options
  import opened DriftLoop
  import F = Features

  const LOOK_BACK := 20

  function RowAt(ticks: seq<F.Tick>, vols: seq<real>, i: nat, m: F.Maths): Row
    requires i < |ticks| == |vols|
  {
    var o := F.Build(ticks[..i + 1], LOOK_BACK, m);
    Row(if o.Vector? then Some(o.values) else None, vols[i])
  }

  function ReplayRows(ticks: seq<F.Tick>, vols: seq<real>, m: F.Maths): (rows: seq<Row>)
    requires |ticks| == |vols|
    ensures |rows| == |ticks| && forall i :: 0 <= i < |rows| ==> rows[i] == RowAt(ticks, vols, i, m)
  {
    seq(|ticks|, i requires 0 <= i < |ticks| => RowAt(ticks, vols, i, m))
  }

  lemma RowStays(ticks: seq<F.Tick>, vols: seq<real>, i: nat, j: nat, m: F.Maths)
    requires i < j < |ticks| == |vols| && F.NoErrors(ticks, 0, |ticks|, LOOK_BACK, F.LogReturn(m.log))
    requires RowAt(ticks, vols, i, m).feature.Some?
    ensures RowAt(ticks, vols, j, m).feature.Some?
  {
    assert F.NoErrors(ticks, i + 1, j + 1, LOOK_BACK, F.LogReturn(m.log));
    F.ReadyForEver(ticks, i + 1, j + 1, LOOK_BACK, m);
  }

  /** Every file that replays without a domain error meets the drift loop's hypothesis. */
  lemma ReplayIsContiguous(ticks: seq<F.Tick>, vols: seq<real>, m: F.Maths)
    requires |ticks| == |vols| && F.NoErrors(ticks, 0, |ticks|, LOOK_BACK, F.LogReturn(m.log))
    ensures Contiguous(ReplayRows(ticks, vols, m))
  {
    var rows := ReplayRows(ticks, vols, m);
    forall i, j | 0 <= i < j < |rows| && rows[i].feature.Some? ensures rows[j].feature.Some? {
      RowStays(ticks, vols, i, j, m);
    }
  }
}
