/**
 * The values the simulator hands to the plotter: channel models, intervals of
 * the simulated timeline, and the time-stamped success/failure samples drawn
 * in each interval.
 */
module SimData {

  /** The two fields of a Markov channel model that the plotter reads. */
  datatype ChannelModel = ChannelModel(title: string, txTime: real)

  /** A timeline interval: its absolute start offset in ms and its channel model. */
  datatype Interval = Interval(startTime: int, model: ChannelModel)

  /** One transmission outcome: (timestamp in ms, success flag). */
  type Sample = (int, bool)

  /** One entry of a simulation result: an interval and the samples drawn in it. */
  datatype Entry = Entry(interval: Interval, samples: seq<Sample>)

  /** All samples of a result, interval after interval, each interval's in its own order. */
  function Flatten(entries: seq<Entry>): seq<Sample>
  {
    if entries == [] then []
    else Flatten(entries[..|entries| - 1]) + entries[|entries| - 1].samples
  }

  /** For each sample of Flatten(entries), the model of the interval it was drawn in. */
  function Owners(entries: seq<Entry>): (owners: seq<ChannelModel>)
    ensures |owners| == |Flatten(entries)|
  {
    if entries == [] then []
    else
      var last := entries[|entries| - 1];
      Owners(entries[..|entries| - 1]) + seq(|last.samples|, _ => last.interval.model)
  }

  /** Taking one more entry of a result appends that entry's samples (and owners). */
  lemma FlattenSnoc(entries: seq<Entry>, i: nat)
    requires i < |entries|
    ensures Flatten(entries[..i + 1]) == Flatten(entries[..i]) + entries[i].samples
    ensures Owners(entries[..i + 1])
         == Owners(entries[..i]) + seq(|entries[i].samples|, _ => entries[i].interval.model)
  {
    assert entries[..i + 1][..i] == entries[..i];
  }

  /** Flattening distributes over concatenation of results. */
  lemma {:induction false} FlattenAppend(a: seq<Entry>, b: seq<Entry>)
    ensures Flatten(a + b) == Flatten(a) + Flatten(b)
    decreases |b|
  {
    if b == [] {
      assert a + b == a;
    } else {
      var b' := b[..|b| - 1];
      assert (a + b)[..|a + b| - 1] == a + b';
      FlattenAppend(a, b');
      calc {
        Flatten(a + b);
        Flatten(a + b') + b[|b| - 1].samples;
        Flatten(a) + Flatten(b') + b[|b| - 1].samples;
        Flatten(a) + Flatten(b);
      }
    }
  }

  /** The owner list distributes over concatenation of results in the same way. */
  lemma {:induction false} OwnersAppend(a: seq<Entry>, b: seq<Entry>)
    ensures Owners(a + b) == Owners(a) + Owners(b)
    decreases |b|
  {
    if b == [] {
      assert a + b == a;
    } else {
      var b', last := b[..|b| - 1], b[|b| - 1];
      var tail := seq(|last.samples|, _ => last.interval.model);
      assert (a + b)[..|a + b| - 1] == a + b';
      OwnersAppend(a, b');
      calc {
        Owners(a + b);
        Owners(a + b') + tail;
        Owners(a) + Owners(b') + tail;
        Owners(a) + Owners(b);
      }
    }
  }

  /**
   * Sample j of entry i sits at offset |Flatten(entries[..i])| + j of the
   * flattened stream, and is owned by entry i's model: the stream is in
   * interval order, then sample order.
   */
  lemma FlattenAt(entries: seq<Entry>, i: nat, j: nat)
    requires i < |entries| && j < |entries[i].samples|
    ensures |Flatten(entries[..i])| + j < |Flatten(entries)|
    ensures Flatten(entries)[|Flatten(entries[..i])| + j] == entries[i].samples[j]
    ensures Owners(entries)[|Flatten(entries[..i])| + j] == entries[i].interval.model
  {
    assert entries == entries[..i + 1] + entries[i + 1..];
    FlattenAppend(entries[..i + 1], entries[i + 1..]);
    OwnersAppend(entries[..i + 1], entries[i + 1..]);
    FlattenSnoc(entries, i);
  }

  /** The number of successful samples in s. */
  function Successes(s: seq<Sample>): (k: nat)
    ensures k <= |s|
  {
    if s == [] then 0
    else Successes(s[..|s| - 1]) + (if s[|s| - 1].1 then 1 else 0)
  }

  /**
   * Successes of a concatenation is the sum of the parts: a running count
   * carried across interval boundaries never resets.
   */
  lemma {:induction false} SuccessesAppend(a: seq<Sample>, b: seq<Sample>)
    ensures Successes(a + b) == Successes(a) + Successes(b)
    decreases |b|
  {
    if b == [] {
      assert a + b == a;
    } else {
      var b' := b[..|b| - 1];
      assert (a + b)[..|a + b| - 1] == a + b';
      SuccessesAppend(a, b');
    }
  }

  /** Successes(s) is the number of positions of s whose success flag is set. */
  lemma {:induction false} SuccessesCount(s: seq<Sample>)
    ensures Successes(s) == |set i | 0 <= i < |s| && s[i].1|
  {
    if s != [] {
      var n := |s| - 1;
      var prefix := s[..n];
      SuccessesCount(prefix);
      var before := set i | 0 <= i < n && prefix[i].1;
      var all := set i | 0 <= i < |s| && s[i].1;
      assert before == set i | 0 <= i < n && s[i].1;
      if s[n].1 {
        assert all == before + {n};
      } else {
        assert all == before;
      }
    }
  }
}
