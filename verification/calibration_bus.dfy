/**
 * CalibrationTagDataBus: the bounded buffer of calibration readings shared between the
 * scanner and the calibration screen. The LiveData wrapper, its observers and the
 * `synchronized` locking are not modelled; the buffer is a value.
 */
module CalibrationBus {
  import opened Samples
  import opened Ints

  const MAX_BUFFER: nat := 10000

  datatype Bus = Bus(pending: seq<CalibrationSample>)

  predicate Bounded(b: Bus) { |b.pending| <= MAX_BUFFER }

  /** append: the reading goes at the end; past the bound the oldest reading is dropped. */
  function Append(b: Bus, sample: CalibrationSample): (r: Bus)
    ensures |r.pending| > 0 && r.pending[|r.pending| - 1] == sample
    ensures Bounded(b) ==> Bounded(r)
    ensures |b.pending| < MAX_BUFFER ==> r.pending == b.pending + [sample]
    ensures |b.pending| >= MAX_BUFFER ==> r.pending == b.pending[1..] + [sample]
  {
    var grown := b.pending + [sample];
    if |grown| > MAX_BUFFER then Bus(grown[1..]) else Bus(grown)
  }

  /** consumeAll: hands out every pending reading in arrival order and empties the buffer;
      an empty buffer yields an empty list. */
  function ConsumeAll(b: Bus): (r: (seq<CalibrationSample>, Bus))
    ensures r.0 == b.pending
    ensures r.1.pending == []
  {
    if |b.pending| == 0 then ([], b) else (b.pending, Bus([]))
  }

  /** The buffer after appending `xs` in order. */
  function AppendAll(b: Bus, xs: seq<CalibrationSample>): Bus
    decreases |xs|
  {
    if |xs| == 0 then b else Append(AppendAll(b, xs[..|xs| - 1]), xs[|xs| - 1])
  }

  /** However many readings arrive, the buffer holds exactly the newest MAX_BUFFER of
      everything appended, oldest first. */
  lemma {:induction false} AppendAllKeepsNewest(b: Bus, xs: seq<CalibrationSample>)
    requires Bounded(b)
    ensures AppendAll(b, xs).pending == (b.pending + xs)[Max(0, |b.pending| + |xs| - MAX_BUFFER)..]
    decreases |xs|
  {
    if |xs| > 0 {
      var init := xs[..|xs| - 1];
      AppendAllKeepsNewest(b, init);
      var all := b.pending + xs;
      var before := (b.pending + init)[Max(0, |b.pending| + |init| - MAX_BUFFER)..];
      assert b.pending + init == all[..|all| - 1];
      assert before + [xs[|xs| - 1]] == all[Max(0, |b.pending| + |init| - MAX_BUFFER)..];
      if |before| >= MAX_BUFFER {
        assert before[1..] + [xs[|xs| - 1]] == all[Max(0, |b.pending| + |xs| - MAX_BUFFER)..];
      }
    }
  }

  /** Draining after a run of appends to an empty buffer returns the last MAX_BUFFER
      readings, and a second drain returns nothing. */
  lemma DrainAfterAppends(xs: seq<CalibrationSample>)
    ensures ConsumeAll(AppendAll(Bus([]), xs)).0 == xs[Max(0, |xs| - MAX_BUFFER)..]
    ensures ConsumeAll(ConsumeAll(AppendAll(Bus([]), xs)).1).0 == []
  {
    var empty := Bus([]);
    assert Bounded(empty) && |empty.pending| == 0 && empty.pending + xs == xs;
    AppendAllKeepsNewest(empty, xs);
  }
}
