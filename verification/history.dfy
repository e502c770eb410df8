/** The bounded histories: the four host sample windows (CPU, RAM, receive rate, send
    rate), which start as sixty zeros and slide by one sample per tick (src/main.rs:253-256,
    295-302), and the per-container usage history, a map from container ID to at most sixty
    samples that never forgets an ID (src/main.rs:230-240, 309-321). */
module History {

  /** Length of every host sample window. */
  const WindowLength: nat := 60

  /** Most samples kept per container. */
  const HistoryCap: nat := 60

  // ---------------------------------------------------------------------------
  // Host sample windows

  /** `vec![0; 60]`. */
  function ZeroWindow(): (w: seq<nat>)
    ensures |w| == WindowLength
    ensures forall i :: 0 <= i < |w| ==> w[i] == 0
  {
    seq(WindowLength, _ => 0)
  }

  /** `remove(0)` followed by `push(v)`: the window keeps its length, loses its oldest
      sample, and ends with the new one; the other samples move one place towards the
      front in their order. `remove(0)` panics on an empty vector, hence the requirement. */
  function Slide<T>(w: seq<T>, v: T): (r: seq<T>)
    requires |w| > 0
    ensures |r| == |w|
    ensures r[|r| - 1] == v
    ensures forall i :: 0 <= i < |w| - 1 ==> r[i] == w[i + 1]
  {
    w[1..] + [v]
  }

  /** Sliding in several samples, oldest first. */
  function SlideAll<T>(w: seq<T>, vs: seq<T>): seq<T>
    requires |w| > 0
    decreases |vs|
  {
    if |vs| == 0 then w else SlideAll(Slide(w, vs[0]), vs[1..])
  }

  /** The window always shows the latest `|w|` values of its initial contents followed by
      everything pushed since: a fixed-length FIFO. */
  lemma {:induction false} SlideAllIsSuffix<T>(w: seq<T>, vs: seq<T>)
    requires |w| > 0
    ensures SlideAll(w, vs) == (w + vs)[|vs|..]
    decreases |vs|
  {
    if |vs| > 0 {
      var w' := Slide(w, vs[0]);
      SlideAllIsSuffix(w', vs[1..]);
      assert w' + vs[1..] == (w + vs)[1..];
    } else {
      assert w + vs == w;
    }
  }

  /** Once at least a window's worth of samples has been pushed, the window holds exactly
      the last `|w|` of them, in order. */
  lemma SlideAllFull<T>(w: seq<T>, vs: seq<T>)
    requires 0 < |w| <= |vs|
    ensures SlideAll(w, vs) == vs[|vs| - |w|..]
  {
    SlideAllIsSuffix(w, vs);
    assert (w + vs)[|vs|..] == vs[|vs| - |w|..];
  }

  // ---------------------------------------------------------------------------
  // Per-container usage history

  /** The samples kept for `id`, or none yet. */
  function Entry<T>(h: map<string, seq<T>>, id: string): seq<T>
  {
    if id in h then h[id] else []
  }

  /** No container has more than `HistoryCap` samples. */
  predicate Capped<T>(h: map<string, seq<T>>) {
    forall k :: k in h ==> |h[k]| <= HistoryCap
  }

  /** `update_container_stats`: append the sample to the container's history (created
      empty if missing) and drop the oldest sample once that makes it longer than the cap. */
  function Record<T>(h: map<string, seq<T>>, id: string, sample: T): map<string, seq<T>>
  {
    var entry := Entry(h, id) + [sample];
    h[id := if |entry| > HistoryCap then entry[1..] else entry]
  }

  /** Recording creates the entry when missing and leaves every other ID alone; the new
      sample becomes the last one, and the samples before it are the old history, minus
      exactly its oldest sample once the history had reached the cap. */
  lemma RecordSpec<T>(h: map<string, seq<T>>, id: string, sample: T)
    ensures var r := Record(h, id, sample);
      && r.Keys == h.Keys + {id}
      && (forall k :: k in h && k != id ==> r[k] == h[k])
      && |r[id]| > 0 && r[id][|r[id]| - 1] == sample
      && (|Entry(h, id)| < HistoryCap ==> r[id][..|r[id]| - 1] == Entry(h, id))
      && (|Entry(h, id)| >= HistoryCap ==> r[id][..|r[id]| - 1] == Entry(h, id)[1..])
      && (|Entry(h, id)| <= HistoryCap ==> |r[id]| <= HistoryCap)
  {
    var entry := Entry(h, id) + [sample];
    var kept := if |entry| > HistoryCap then entry[1..] else entry;
    assert kept[..|kept| - 1] == (if |entry| > HistoryCap then Entry(h, id)[1..] else Entry(h, id));
  }

  /** Recording keeps every history within the cap. */
  lemma RecordKeepsCapped<T>(h: map<string, seq<T>>, id: string, sample: T)
    requires Capped(h)
    ensures Capped(Record(h, id, sample))
  {
    RecordSpec(h, id, sample);
  }

  /** The most recent `HistoryCap` elements of `s` (all of them when there are fewer). */
  function Latest<T>(s: seq<T>): (r: seq<T>)
    ensures |r| <= HistoryCap && |r| <= |s|
    ensures r == s[|s| - |r|..]
  {
    if |s| > HistoryCap then s[|s| - HistoryCap..] else s
  }

  /** A history after one append: the oldest sample goes once it is over the cap. */
  function Keep<T>(e: seq<T>): seq<T>
  {
    if |e| > HistoryCap then e[1..] else e
  }

  /** What recording does to the recorded container's own history. */
  lemma RecordEntry<T>(h: map<string, seq<T>>, id: string, sample: T)
    ensures Entry(Record(h, id, sample), id) == Keep(Entry(h, id) + [sample])
  {
  }

  /** Trimming after an append never changes what the latest samples will be. */
  lemma KeepThenLatest<T>(e: seq<T>, rest: seq<T>)
    requires |e| <= HistoryCap + 1
    ensures |Keep(e)| <= HistoryCap
    ensures Latest(Keep(e) + rest) == Latest(e + rest)
  {
    if |e| > HistoryCap {
      assert Keep(e) + rest == (e + rest)[1..];
    }
  }

  /** Recording the first of several samples: the rest then lead to the same latest part. */
  lemma RecordStep<T>(h: map<string, seq<T>>, id: string, samples: seq<T>)
    requires |Entry(h, id)| <= HistoryCap && |samples| > 0
    ensures |Entry(Record(h, id, samples[0]), id)| <= HistoryCap
    ensures Latest(Entry(Record(h, id, samples[0]), id) + samples[1..]) == Latest(Entry(h, id) + samples)
  {
    var e := Entry(h, id) + [samples[0]];
    RecordEntry(h, id, samples[0]);
    KeepThenLatest(e, samples[1..]);
    assert e + samples[1..] == Entry(h, id) + samples;
  }

  /** Recording several samples for one container, oldest first. */
  function RecordMany<T>(h: map<string, seq<T>>, id: string, samples: seq<T>): map<string, seq<T>>
    decreases |samples|
  {
    if |samples| == 0 then h else RecordMany(Record(h, id, samples[0]), id, samples[1..])
  }

  /** A container's history is always the most recent samples, at most `HistoryCap` of
      them, in the order they were recorded: recording 70 samples for a new container
      leaves the last 60. */
  lemma {:induction false} RecordManyKeepsLatest<T>(h: map<string, seq<T>>, id: string, samples: seq<T>)
    requires |Entry(h, id)| <= HistoryCap
    ensures Entry(RecordMany(h, id, samples), id) == Latest(Entry(h, id) + samples)
    decreases |samples|
  {
    if |samples| == 0 {
      assert Entry(h, id) + samples == Entry(h, id);
    } else {
      var h' := Record(h, id, samples[0]);
      RecordStep(h, id, samples);
      RecordManyKeepsLatest(h', id, samples[1..]);
    }
  }

  /** One tick's worth of recording: one sample per listed container, in listing order. */
  function RecordAll<T>(h: map<string, seq<T>>, updates: seq<(string, T)>): map<string, seq<T>>
    decreases |updates|
  {
    if |updates| == 0 then h else RecordAll(Record(h, updates[0].0, updates[0].1), updates[1..])
  }

  /** The IDs of a tick's updates. */
  function UpdatedIds<T>(updates: seq<(string, T)>): set<string>
  {
    set i | 0 <= i < |updates| :: updates[i].0
  }

  lemma UpdatedIdsCons<T>(updates: seq<(string, T)>)
    requires |updates| > 0
    ensures UpdatedIds(updates) == {updates[0].0} + UpdatedIds(updates[1..])
  {
    var a := UpdatedIds(updates);
    var b := UpdatedIds(updates[1..]);
    forall k | k in a ensures k in {updates[0].0} + b {
      var i :| 0 <= i < |updates| && updates[i].0 == k;
      if i > 0 { assert updates[1..][i - 1].0 == k; }
    }
    forall k | k in b ensures k in a {
      var i :| 0 <= i < |updates[1..]| && updates[1..][i].0 == k;
      assert updates[i + 1].0 == k;
    }
  }

  /** After a tick every updated container has a history, and no ID is ever removed. */
  lemma {:induction false} RecordAllKeys<T>(h: map<string, seq<T>>, updates: seq<(string, T)>)
    ensures RecordAll(h, updates).Keys == h.Keys + UpdatedIds(updates)
    decreases |updates|
  {
    if |updates| > 0 {
      UpdatedIdsCons(updates);
      RecordAllKeys(Record(h, updates[0].0, updates[0].1), updates[1..]);
    }
  }

  /** The history of a container that was not listed in the tick is left as it was. */
  lemma {:induction false} RecordAllLeavesOthers<T>(h: map<string, seq<T>>, updates: seq<(string, T)>, k: string)
    requires k in h && k !in UpdatedIds(updates)
    ensures k in RecordAll(h, updates) && RecordAll(h, updates)[k] == h[k]
    decreases |updates|
  {
    if |updates| > 0 {
      UpdatedIdsCons(updates);
      RecordAllLeavesOthers(Record(h, updates[0].0, updates[0].1), updates[1..], k);
    }
  }

  /** A tick never lets any history grow past the cap. */
  lemma {:induction false} RecordAllKeepsCapped<T>(h: map<string, seq<T>>, updates: seq<(string, T)>)
    requires Capped(h)
    ensures Capped(RecordAll(h, updates))
    decreases |updates|
  {
    if |updates| > 0 {
      RecordKeepsCapped(h, updates[0].0, updates[0].1);
      RecordAllKeepsCapped(Record(h, updates[0].0, updates[0].1), updates[1..]);
    }
  }

  /** After a tick, a container's newest sample is the one of its last update in the
      tick, whatever the history held before. */
  lemma {:induction false} RecordAllLast<T>(h: map<string, seq<T>>, updates: seq<(string, T)>, i: nat)
    requires i < |updates|
    requires forall j :: i < j < |updates| ==> updates[j].0 != updates[i].0
    ensures var r := RecordAll(h, updates);
      updates[i].0 in r && |r[updates[i].0]| > 0 && r[updates[i].0][|r[updates[i].0]| - 1] == updates[i].1
    decreases |updates|
  {
    var h' := Record(h, updates[0].0, updates[0].1);
    if i == 0 {
      var k := updates[0].0;
      RecordSpec(h, k, updates[0].1);
      assert k !in UpdatedIds(updates[1..]) by {
        forall j | 0 <= j < |updates[1..]|
          ensures updates[1..][j].0 != k
        {
          assert updates[1..][j] == updates[j + 1];
        }
      }
      RecordAllLeavesOthers(h', updates[1..], k);
    } else {
      forall j | i - 1 < j < |updates[1..]|
        ensures updates[1..][j].0 != updates[1..][i - 1].0
      {
        assert updates[1..][j] == updates[j + 1];
      }
      RecordAllLast(h', updates[1..], i - 1);
    }
  }
}
