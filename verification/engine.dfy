/** The mixer session of SDL_nmix.c: the device state and master gain, the
    registry of playing sources (an intrusive doubly-linked list headed by
    `playing`, threaded through Source.prev/next), and the audio callback
    that mixes every playing source into the device buffer. */
module Engine {
  import opened AudioFormat
  import opened SampleMath
  import opened Seqs
  import opened Voice
  import opened Registry

  /** What SDL_OpenAudioDevice gives back: refusal, or the obtained rate and
      period length in sample frames. */
  datatype Device = Refused | Granted(freq: int, samples: int) {
    /** SDL hands out positive rates and period lengths. */
    predicate Sane() {
      Granted? ==> freq > 0 && samples > 0
    }
  }

  /** How mixing one source into a period ended: its share of the buffer was
      filled, it ran out with eof set and was removed, or pushing a refill
      into its converter failed. */
  datatype Outcome = Filled | Ended | Aborted

  /** A source's state as the callback sees it: gain, pan, eof flag,
      converter contents and refills to come. */
  datatype Status = Status(gain: real, pan: real, eof: bool, pending: seq<real>, refills: seq<Refill>)

  ghost function StatusOf(t: Source): Status
    reads t`gain, t`pan, t`eof, t`pending, t`refills
  {
    Status(t.gain, t.pan, t.eof, t.pending, t.refills)
  }

  /** Every source in m still has the status m records for it. */
  ghost predicate Idle(m: map<Source, Status>)
    reads m.Keys
  {
    forall t :: t in m ==> StatusOf(t) == m[t]
  }

  /** The status of each source of P, in order. */
  ghost function Snapshot(P: seq<Source>): (f: seq<Status>)
    reads P
    ensures |f| == |P| && forall i :: 0 <= i < |P| ==> f[i] == StatusOf(P[i])
  {
    seq(|P|, i requires 0 <= i < |P| reads P => StatusOf(P[i]))
  }

  /** What one pass of the callback did with one playing source: the status
      it found and the one it left, the samples it drained, the refills it
      performed, and how it ended. */
  datatype Pass = Pass(before: Status, after: Status,
                       drained: seq<real>, fed: seq<Refill>, outcome: Outcome)

  /** The status a pass left follows from the one it found: gain and pan
      are kept, the refills performed are the next ones the source had, what
      it drained is what it held plus what they delivered, minus what is
      left, and eof is set when it was or a refill set it. The drained
      samples fit the n-sample period in whole frames and fill it unless the
      source ended (eof set, converter empty) or a refill was refused, and
      only the last refill can be the refused one. A source found at its end
      is not refilled, nothing is refilled after a refill that set eof, and
      every refill comes when all before it has been drained. Unless a
      refill was refused, the pass ends the source exactly when eof is set
      and the converter is empty, save for a last refill that set eof just
      as the period was full (EofAtFull). Only the last refill can come once
      the period is full (the loop test then stops the pass), none comes in
      an empty period, and a source that filled the period with its
      converter empty and eof clear was refilled just as it became full. */
  predicate Accounts(p: Pass, n: nat) {
    p.after.gain == p.before.gain && p.after.pan == p.before.pan &&
    p.before.refills == p.fed + p.after.refills &&
    p.before.pending + Delivered(p.fed) == p.drained + p.after.pending &&
    p.after.eof == (p.before.eof || SetsEof(p.fed)) &&
    |p.drained| % MixChannels == 0 && |p.drained| <= n &&
    (p.outcome == Filled ==> |p.drained| == n) &&
    (p.outcome == Ended ==> p.after.eof && p.after.pending == []) &&
    (p.outcome == Aborted <==> p.fed != [] && !p.fed[|p.fed| - 1].accepted) &&
    (forall i :: 0 <= i < |p.fed| - 1 ==> p.fed[i].accepted) &&
    (p.before.eof ==> p.fed == []) &&
    EofOnlyLast(p.fed) && RefilledDry(p.before.pending, p.fed, |p.drained|) &&
    RefilledShort(p.before.pending, p.fed, n) && (n == 0 ==> p.fed == []) &&
    (p.outcome == Filled && n > 0 && !p.after.eof && p.after.pending == [] ==>
      RefilledAtFull(p.before.pending, p.fed, n)) &&
    (p.outcome != Aborted && n > 0 ==>
      (p.outcome == Ended <==> p.after.eof && p.after.pending == [] && !EofAtFull(p.before.pending, p.fed, n)))
  }

  /** No refill but the last set eof. */
  predicate EofOnlyLast(fed: seq<Refill>)
    decreases |fed|
  {
    |fed| <= 1 || (!fed[|fed| - 2].eof && EofOnlyLast(fed[..|fed| - 1]))
  }

  /** Each refill came when the converter had run dry: the contents
      `start` and all that the refills before it delivered were among the
      d samples drained. */
  predicate RefilledDry(start: seq<real>, fed: seq<Refill>, d: nat)
    decreases |fed|
  {
    fed == [] ||
    (|start + Delivered(fed[..|fed| - 1])| <= d && RefilledDry(start, fed[..|fed| - 1], d))
  }

  /** Draining more keeps every refill one made when dry. */
  lemma {:induction false} RefilledDryMore(start: seq<real>, fed: seq<Refill>, d: nat, e: nat)
    requires RefilledDry(start, fed, d) && d <= e
    ensures RefilledDry(start, fed, e)
    decreases |fed|
  {
    if fed != [] {
      RefilledDryMore(start, fed[..|fed| - 1], d, e);
    }
  }

  /** The refill before the last came before the n-sample period was
      full: the contents `start` and what the refills before it delivered
      were fewer than n samples (so were those before it, ShortAll). */
  predicate RefilledShort(start: seq<real>, fed: seq<Refill>, n: nat) {
    |fed| < 2 || |start + Delivered(fed[..|fed| - 2])| < n
  }

  /** Refills that each came when at most d < n samples had been drained,
      followed by one more, keep the one before the last short of n. */
  lemma ShortSnoc(start: seq<real>, fed: seq<Refill>, r: Refill, d: nat, n: nat)
    requires RefilledDry(start, fed, d) && d < n
    ensures RefilledShort(start, fed + [r], n)
  {
    if fed != [] {
      assert (fed + [r])[..|fed| - 1] == fed[..|fed| - 1];
    }
  }

  /** Every refill but the last came before the period was full: the
      converter only grows with each refill, so none came later than the
      one before the last. */
  lemma ShortAll(start: seq<real>, fed: seq<Refill>, n: nat)
    requires RefilledShort(start, fed, n)
    ensures forall i :: 0 <= i < |fed| - 1 ==> |start + Delivered(fed[..i])| < n
  {
    forall i | 0 <= i < |fed| - 1
      ensures |start + Delivered(fed[..i])| < n
    {
      var m := |fed| - 2;
      assert fed[..m] == fed[..i] + fed[i..m];
      DeliveredAppend(fed[..i], fed[i..m]);
    }
  }

  /** A source found holding one frame, in a one-frame period, that is
      refilled when the frame is drained: the loop test then ends the pass,
      so no second refill follows. */
  lemma OneRefillAtFull(p: Pass)
    requires p.before.pending == [0.5, 0.5]
    requires p.fed == [Refill([], false, true), Refill([0.1, 0.1], false, true)]
    ensures !Accounts(p, 2)
  {
    assert p.fed[..0] == [];
  }

  /** The same source, with eof clear: draining its frame empties the
      converter, so the pass that fills the period refills it. */
  lemma RefillAtFull(p: Pass)
    requires p.before.pending == [0.5, 0.5] && !p.before.eof && p.fed == [] && p.outcome == Filled
    ensures !Accounts(p, 2)
  {
    assert p.before.pending + Delivered(p.fed) == p.before.pending;
  }

  /** The last refill of a pass that started with converter contents
      `start` came just as the n-sample period was full. */
  predicate RefilledAtFull(start: seq<real>, fed: seq<Refill>, n: nat) {
    fed != [] && |start + Delivered(fed[..|fed| - 1])| == n
  }

  /** How a pass can stop with its n-sample period full: if the converter
      is empty, a refill came just as the period became full, and eof, if
      set, was set by that refill. */
  predicate FullStop(start: seq<real>, fed: seq<Refill>, n: nat, eof: bool, pending: seq<real>) {
    pending == [] ==> RefilledAtFull(start, fed, n) && (eof ==> fed[|fed| - 1].eof)
  }

  /** The last refill of a pass that started with converter contents
      `start` set eof just as the n-sample period was full: the loop then
      stops with the period filled, so a source left with eof set and an
      empty converter is not paused before the next callback. */
  predicate EofAtFull(start: seq<real>, fed: seq<Refill>, n: nat) {
    fed != [] && fed[|fed| - 1].eof && |start + Delivered(fed[..|fed| - 1])| == n
  }

  /** The passes of one callback over the playing list P0, whose sources
      held the statuses `found`: they follow P0 in order from its head and
      start from those statuses, each accounts for the status it left, and
      the walk covers all of P0 unless its last pass was aborted. */
  predicate Walked(P0: seq<Source>, found: seq<Status>, passes: seq<Pass>, n: nat) {
    |found| == |P0| && Recorded(found, passes, n) &&
    (|passes| < |P0| ==> passes != [] && passes[|passes| - 1].outcome == Aborted)
  }

  /** Passes so far of a walk over sources that held the statuses `found`:
      each starts from the status at its position and accounts for the
      status it left, and none but the last was aborted (RecordedAt). */
  predicate Recorded(found: seq<Status>, passes: seq<Pass>, n: nat)
    decreases |passes|
  {
    |passes| <= |found| &&
    (passes != [] ==>
      var k := |passes| - 1;
      Recorded(found, passes[..k], n) &&
      passes[k].before == found[k] && Accounts(passes[k], n) &&
      (k > 0 ==> passes[k - 1].outcome != Aborted))
  }

  /** The record of a walk, pass by pass. */
  lemma {:induction false} RecordedAt(found: seq<Status>, passes: seq<Pass>, n: nat)
    requires Recorded(found, passes, n)
    ensures |passes| <= |found|
    ensures forall i :: 0 <= i < |passes| ==> passes[i].before == found[i] && Accounts(passes[i], n)
    ensures forall i :: 0 <= i < |passes| - 1 ==> passes[i].outcome != Aborted
    decreases |passes|
  {
    if passes != [] {
      RecordedAt(found, passes[..|passes| - 1], n);
    }
  }

  /** One more pass extends a walk's record, the statuses it leaves and the
      period it renders. */
  lemma PassSnoc(found: seq<Status>, passes: seq<Pass>, p: Pass, n: nat, master: real)
    requires Recorded(found, passes, n) && |passes| < |found|
    requires passes != [] ==> passes[|passes| - 1].outcome != Aborted
    requires p.before == found[|passes|] && Accounts(p, n)
    ensures Recorded(found, passes + [p], n)
    ensures Statuses(found, passes + [p]) == Statuses(found, passes)[|passes| := p.after]
  {
    assert (passes + [p])[..|passes|] == passes;
  }

  /** A pass p of the next source, found with its recorded status, carries
      the walk's record, its statuses (snap becoming snap') and its
      rendering (period becoming period') one pass further. */
  lemma Extended(found: seq<Status>, passes: seq<Pass>, p: Pass, layers: seq<seq<real>>,
                 snap: seq<Status>, snap': seq<Status>, period: seq<real>, period': seq<real>, n: nat, master: real)
    requires Recorded(found, passes, n) && |passes| < |found|
    requires passes != [] ==> passes[|passes| - 1].outcome != Aborted
    requires p.before == found[|passes|] && Accounts(p, n)
    requires snap == Statuses(found, passes) && snap' == snap[|passes| := p.after]
    requires layers == Layers(passes, master) && period == Render(n, layers)
    requires period' == MixAt(period, 0, Layer(p, master))
    ensures Recorded(found, passes + [p], n) && snap' == Statuses(found, passes + [p])
    ensures layers + [Layer(p, master)] == Layers(passes + [p], master)
    ensures period' == Render(n, layers + [Layer(p, master)])
  {
    PassSnoc(found, passes, p, n, master);
    LayersSnoc(passes, p, master);
    RenderSnoc(n, layers, Layer(p, master));
  }

  /** The statuses a walk leaves behind: each visited source as its pass
      left it, the others as they were found. */
  function Statuses(found: seq<Status>, passes: seq<Pass>): (f: seq<Status>)
    requires |passes| <= |found|
    ensures |f| == |found|
    ensures forall j :: 0 <= j < |passes| ==> f[j] == passes[j].after
    ensures forall j :: |passes| <= j < |found| ==> f[j] == found[j]
    decreases |passes|
  {
    if passes == [] then found
    else
      var k := |passes| - 1;
      Statuses(found, passes[..k])[k := passes[k].after]
  }

  /** What a pass adds to the period. */
  function Layer(p: Pass, master: real): seq<real> {
    Scaled(p.drained, p.before.gain, master, p.before.pan)
  }

  /** What the passes add to the period, in order. */
  function Layers(ps: seq<Pass>, master: real): (ls: seq<seq<real>>)
    ensures |ls| == |ps|
    ensures forall i :: 0 <= i < |ps| ==> ls[i] == Layer(ps[i], master)
  {
    seq(|ps|, i requires 0 <= i < |ps| => Layer(ps[i], master))
  }

  lemma LayersSnoc(ps: seq<Pass>, p: Pass, master: real)
    ensures Layers(ps + [p], master) == Layers(ps, master) + [Layer(p, master)]
  {
  }

  /** The sources of P0 whose pass ended them, the i-th pass being that of P0[i]. */
  ghost function EndedSources(P0: seq<Source>, ps: seq<Pass>): (e: set<Source>)
    requires |ps| <= |P0|
    ensures forall t :: t in e ==> exists i :: 0 <= i < |ps| && P0[i] == t
    decreases |ps|
  {
    if ps == [] then {}
    else
      var k := |ps| - 1;
      EndedSources(P0, ps[..k]) + (if ps[k].outcome == Ended then {P0[k]} else {})
  }

  /** One more pass adds its source to the ended ones exactly when it ended. */
  lemma EndedSnoc(P0: seq<Source>, ps: seq<Pass>, p: Pass)
    requires |ps| < |P0|
    ensures EndedSources(P0, ps + [p]) == EndedSources(P0, ps) + (if p.outcome == Ended then {P0[|ps|]} else {})
  {
    assert (ps + [p])[..|ps|] == ps;
  }

  /** The playing list after the passes of a walk that started from P0, the
      i-th pass being that of P0[i]: a pass that ended its source paused it,
      taking it out of the list. */
  ghost function Remaining(P0: seq<Source>, passes: seq<Pass>): seq<Source>
    requires |passes| <= |P0|
    decreases |passes|
  {
    if passes == [] then P0
    else
      var k := |passes| - 1;
      var rest := Remaining(P0, passes[..k]);
      if passes[k].outcome == Ended then Without(rest, P0[k]) else rest
  }

  /** The pauses of a walk over a list without repeats take out exactly the
      sources that ended, keeping the others in order: the list is the kept
      visited sources followed by the unvisited rest. */
  lemma {:induction false} RemainingOrder(P0: seq<Source>, passes: seq<Pass>)
    requires |passes| <= |P0|
    requires Distinct(P0)
    ensures Remaining(P0, passes) == Drop(P0[..|passes|], EndedSources(P0, passes)) + P0[|passes|..]
    decreases |passes|
  {
    if passes == [] {
      assert P0[..0] == [] && P0[0..] == P0;
    } else {
      var ps, p := passes[..|passes| - 1], passes[|passes| - 1];
      assert passes == ps + [p];
      RemainingOrder(P0, ps);
      WalkStep(P0, ps, p, Remaining(P0, ps), Remaining(P0, passes));
    }
  }

  /** During the callback's walk over P0, with the first |passes| sources
      visited, the next pointer of the source to visit is its successor in
      P0: the sources after it have not been visited, so none was paused. */
  lemma WalkNext(L: ListShape, P0: seq<Source>, passes: seq<Pass>, pos: map<Source, int>)
    requires |passes| < |P0|
    requires forall i :: 0 <= i < |P0| ==> P0[i] in pos && pos[P0[i]] == i
    requires L.list == Remaining(P0, passes)
    ensures P0[|passes|] in L.list && P0[|passes|] in L.nexts
    ensures L.nexts[P0[|passes|]] == if |passes| + 1 < |P0| then P0[|passes| + 1] else null
  {
    var k := |passes|;
    assert Distinct(P0) by {
      forall i, j | 0 <= i < j < |P0| ensures P0[i] != P0[j] {
        assert pos[P0[i]] != pos[P0[j]];
      }
    }
    RemainingOrder(P0, passes);
    assert P0[k..][0] == P0[k];
    Successor(L, Drop(P0[..k], EndedSources(P0, passes)), P0[k..]);
  }

  /** The walk moves on by one source: whether the pass left it in the
      list or paused it at its end, the list is again the kept visited
      sources followed by the rest of P0. */
  lemma WalkStep(P0: seq<Source>, passes: seq<Pass>, p: Pass,
                 before: seq<Source>, after: seq<Source>)
    requires |passes| < |P0|
    requires Distinct(P0)
    requires before == Drop(P0[..|passes|], EndedSources(P0, passes)) + P0[|passes|..]
    requires p.outcome == Ended ==> after == Without(before, P0[|passes|])
    requires p.outcome != Ended ==> after == before
    ensures after == Drop(P0[..|passes| + 1], EndedSources(P0, passes + [p])) + P0[|passes| + 1..]
  {
    var k := |passes|;
    var s, E := P0[k], EndedSources(P0, passes);
    EndedSnoc(P0, passes, p);
    if p.outcome == Ended {
      assert s !in P0[..k];
      PassRemoved(P0, k, E);
    } else {
      assert s !in E;
      assert E + {} == E;
      PassKept(P0, k, E);
    }
  }

  /** The SDL_memset that starts the callback: the period becomes silence. */
  method Silence(out: array<real>)
    modifies out
    ensures out[..] == Zeros(out.Length)
  {
    var i := 0;
    while i < out.Length
      invariant 0 <= i <= out.Length
      invariant forall j :: 0 <= j < i ==> out[j] == 0.0
    {
      out[i] := 0.0;
      i := i + 1;
    }
  }

  /** The inner `for` loop of the callback: mixes one chunk drained from a
      source's converter into the output at sample `offset`, each pair
      scaled by gain and master gain, panned, and saturated. */
  method MixChunk(out: array<real>, offset: nat, chunk: seq<real>, gain: real, master: real, pan: real)
    requires |chunk| % MixChannels == 0 && offset + |chunk| <= out.Length
    modifies out
    ensures out[..] == MixAt(old(out[..]), offset, Scaled(chunk, gain, master, pan))
  {
    ghost var base := out[..];
    ghost var layer := Scaled(chunk, gain, master, pan);
    var i := 0;
    while i < |chunk|
      invariant 0 <= i <= |chunk| && i % 2 == 0
      invariant forall j :: 0 <= j < i ==> out[offset + j] == MixSamples(base[offset + j], layer[j])
      invariant forall k :: 0 <= k < out.Length && !(offset <= k < offset + i) ==> out[k] == base[k]
    {
      var sl := chunk[i] * gain * master;
      var sr := chunk[i + 1] * gain * master;
      ScaledFrame(chunk, gain, master, pan, i, sl, sr);
      sl, sr := ApplyPanning(pan, sl, sr);
      assert sl == layer[i] && sr == layer[i + 1];
      out[offset + i] := MixSamples(out[offset + i], sl);
      out[offset + i + 1] := MixSamples(out[offset + i + 1], sr);
      i := i + 2;
    }
    assert out[..] == MixAt(base, offset, layer);
  }

  /** One round of nmix_callback's inner loop up to the mixing: the copy
      size is what the converter holds, capped by out_buffer_size and by
      what is left of the period; that much is taken off the converter and
      mixed in at the running byte offset, sample `at`. */
  method DrainChunk(s: Source, out: array<real>, bytesWritten: nat, master: real,
                    ghost base: seq<real>, ghost drained: seq<real>) returns (chunk: Interleaved)
    requires bytesWritten == SampleBytes * |drained| && |drained| % MixChannels == 0
    requires |drained| <= out.Length && out.Length % MixChannels == 0
    requires out[..] == MixAt(base, 0, Scaled(drained, s.gain, master, s.pan))
    modifies out, s`pending
    ensures old(s.pending) == chunk + s.pending
    ensures SampleBytes * |chunk| == Min(Min(old(s.Available()), s.outBufferSize), SampleBytes * out.Length - bytesWritten)
    ensures |drained + chunk| <= out.Length && |drained + chunk| % MixChannels == 0
    ensures bytesWritten + SampleBytes * |chunk| == SampleBytes * |drained + chunk|
    ensures out[..] == MixAt(base, 0, Scaled(drained + chunk, s.gain, master, s.pan))
  {
    ghost var at := |drained|;
    var size := SampleBytes * out.Length;
    var copySize := s.Available();
    if copySize > s.outBufferSize {
      copySize := s.outBufferSize;
    }
    if bytesWritten + copySize > size {
      copySize := size - bytesWritten;
    }
    chunk := s.Get(copySize);
    ByteCount(at, |chunk|);
    ByteCount(at + |chunk|, out.Length);
    SampleOffset(at);
    MixChunk(out, bytesWritten / SampleBytes, chunk, s.gain, master, s.pan);
    MixOnward(base, drained, chunk, s.gain, master, s.pan);
    FrameCount(at, |chunk|);
  }

  /** One pass of nmix_callback's inner loop over a playing source s:
      converted audio is drained in chunks of at most out_buffer_size bytes
      and mixed into the period at the running byte offset; each time the
      converter runs empty the source is refilled, or, at its end, the pass
      stops (Ended: the caller pauses the source); a refused refill aborts.
      `drained` is every sample taken off the converter, `fed` every refill
      performed. */
  method Stream(s: Source, out: array<real>, master: real) returns (outcome: Outcome, ghost drained: seq<real>, ghost fed: seq<Refill>)
    requires out.Length % MixChannels == 0 && s.Supplies(SampleBytes * out.Length)
    modifies out, s`pending, s`eof, s`refills
    ensures |drained| % MixChannels == 0 && |drained| <= out.Length
    ensures old(s.eof) ==> fed == []
    ensures EofOnlyLast(fed) && RefilledDry(old(s.pending), fed, |drained|)
    ensures RefilledShort(old(s.pending), fed, out.Length) && (out.Length == 0 ==> fed == [])
    ensures outcome == Filled && out.Length > 0 && !s.eof && s.pending == [] ==>
      RefilledAtFull(old(s.pending), fed, out.Length)
    ensures outcome != Aborted && out.Length > 0 ==>
      (outcome == Ended <==> s.eof && s.pending == [] && !EofAtFull(old(s.pending), fed, out.Length))
    ensures out[..] == MixAt(old(out[..]), 0, Scaled(drained, s.gain, master, s.pan))
    ensures old(s.refills) == fed + s.refills
    ensures old(s.pending) + Delivered(fed) == drained + s.pending
    ensures s.eof == (old(s.eof) || SetsEof(fed))
    ensures outcome == Aborted <==> fed != [] && !fed[|fed| - 1].accepted
    ensures forall i :: 0 <= i < |fed| - 1 ==> fed[i].accepted
    ensures outcome == Filled ==> |drained| == out.Length
    ensures outcome == Ended ==> s.eof && s.pending == []
    ensures forall t: Source :: old(allocated(t)) && t != s ==> StatusOf(t) == old(StatusOf(t))
  {
    var size := SampleBytes * out.Length;
    ghost var base := out[..];
    drained, fed := [], [];
    var bytesWritten := 0;
    while bytesWritten < size
      invariant bytesWritten == SampleBytes * |drained| <= size && |drained| % MixChannels == 0
      invariant |drained| <= out.Length
      invariant out[..] == MixAt(base, 0, Scaled(drained, s.gain, master, s.pan))
      invariant old(s.refills) == fed + s.refills
      invariant old(s.pending) + Delivered(fed) == drained + s.pending
      invariant s.eof == (old(s.eof) || SetsEof(fed))
      invariant forall i :: 0 <= i < |fed| ==> fed[i].accepted
      invariant s.Supplies(size - bytesWritten)
      invariant old(s.eof) ==> fed == []
      invariant EofOnlyLast(fed) && RefilledDry(old(s.pending), fed, |drained|)
      invariant RefilledShort(old(s.pending), fed, out.Length) && (out.Length == 0 ==> fed == [])
      invariant 0 < bytesWritten == size ==> FullStop(old(s.pending), fed, out.Length, s.eof, s.pending)
      decreases |s.refills|, size - bytesWritten
    {
      bytesWritten, drained, fed, outcome :=
        Turn(s, out, master, base, old(s.pending), old(s.refills), old(s.eof), bytesWritten, drained, fed);
      if outcome != Filled {
        return;
      }
    }
    return Filled, drained, fed;
  }

  /** One turn of the loop in Stream, from a period partly written
      (bytesWritten bytes, the samples `drained` and refills `fed` so far, of
      a pass that found the converter holding `start`, the refills `script`
      to come and eof `eof0`): a chunk is drained and mixed, and if that
      left the converter empty the source is refilled, or the pass ends
      (Ended) or aborts (Aborted); Filled here means the loop goes on. The
      pass's accounting is kept, and a turn that goes on either performed a
      refill or wrote more. */
  method Turn(s: Source, out: array<real>, master: real, ghost base: seq<real>,
              ghost start: seq<real>, ghost script: seq<Refill>, ghost eof0: bool,
              bytesWritten: nat, ghost drained: seq<real>, ghost fed: seq<Refill>)
    returns (written: nat, ghost drained': seq<real>, ghost fed': seq<Refill>, outcome: Outcome)
    requires out.Length % MixChannels == 0 && bytesWritten < SampleBytes * out.Length
    requires bytesWritten == SampleBytes * |drained| && |drained| % MixChannels == 0
    requires out[..] == MixAt(base, 0, Scaled(drained, s.gain, master, s.pan))
    requires script == fed + s.refills && start + Delivered(fed) == drained + s.pending
    requires s.eof == (eof0 || SetsEof(fed)) && (eof0 ==> fed == [])
    requires forall i :: 0 <= i < |fed| ==> fed[i].accepted
    requires s.Supplies(SampleBytes * out.Length - bytesWritten)
    requires EofOnlyLast(fed) && RefilledDry(start, fed, |drained|) && RefilledShort(start, fed, out.Length)
    modifies out, s`pending, s`eof, s`refills
    ensures written == SampleBytes * |drained'| <= SampleBytes * out.Length && |drained'| % MixChannels == 0
    ensures out[..] == MixAt(base, 0, Scaled(drained', s.gain, master, s.pan))
    ensures script == fed' + s.refills && start + Delivered(fed') == drained' + s.pending
    ensures s.eof == (eof0 || SetsEof(fed')) && (eof0 ==> fed' == [])
    ensures EofOnlyLast(fed') && RefilledDry(start, fed', |drained'|) && RefilledShort(start, fed', out.Length)
    ensures forall i :: 0 <= i < |fed'| - 1 ==> fed'[i].accepted
    ensures outcome == Aborted <==> fed' != [] && !fed'[|fed'| - 1].accepted
    ensures outcome == Ended ==> s.eof && s.pending == [] && !EofAtFull(start, fed', out.Length)
    ensures outcome == Filled ==> forall i :: 0 <= i < |fed'| ==> fed'[i].accepted
    ensures outcome == Filled ==> s.Supplies(SampleBytes * out.Length - written)
    ensures outcome == Filled && written == SampleBytes * out.Length ==>
      FullStop(start, fed', out.Length, s.eof, s.pending)
    ensures outcome == Filled ==>
      |s.refills| < |old(s.refills)| || (|s.refills| == |old(s.refills)| && written > bytesWritten)
  {
    var chunk := DrainChunk(s, out, bytesWritten, master, base, drained);
    AppendRegroup(drained, chunk, s.pending);
    written := bytesWritten + SampleBytes * |chunk|;
    drained' := drained + chunk;
    fed', outcome := Settle(s, SampleBytes * out.Length - written, out.Length, start, script, eof0, |drained|, drained', fed);
  }

  /** The end of a turn of Stream, once a chunk was drained (`drained` in
      all, of an n-sample period, `prev` of them before that chunk): if the
      converter is empty the source is refilled, or the pass ends (Ended) or
      aborts (Aborted); otherwise, and after an accepted refill, the loop
      goes on (Filled). */
  method Settle(s: Source, need: nat, n: nat, ghost start: seq<real>, ghost script: seq<Refill>,
                ghost eof0: bool, ghost prev: nat, ghost drained: seq<real>, ghost fed: seq<Refill>)
    returns (ghost fed': seq<Refill>, outcome: Outcome)
    requires prev < n && prev <= |drained|
    requires script == fed + s.refills && start + Delivered(fed) == drained + s.pending
    requires s.eof == (eof0 || SetsEof(fed)) && (eof0 ==> fed == [])
    requires forall i :: 0 <= i < |fed| ==> fed[i].accepted
    requires s.Supplies(need)
    requires EofOnlyLast(fed) && RefilledDry(start, fed, prev) && RefilledShort(start, fed, n)
    modifies s`pending, s`eof, s`refills
    ensures script == fed' + s.refills && start + Delivered(fed') == drained + s.pending
    ensures s.eof == (eof0 || SetsEof(fed')) && (eof0 ==> fed' == [])
    ensures EofOnlyLast(fed') && RefilledDry(start, fed', |drained|) && RefilledShort(start, fed', n)
    ensures forall i :: 0 <= i < |fed'| - 1 ==> fed'[i].accepted
    ensures outcome == Aborted <==> fed' != [] && !fed'[|fed'| - 1].accepted
    ensures outcome == Ended ==> s.eof && s.pending == [] && !EofAtFull(start, fed', n)
    ensures outcome == Filled ==> forall i :: 0 <= i < |fed'| ==> fed'[i].accepted
    ensures outcome == Filled ==> s.Supplies(need)
    ensures outcome == Filled && |drained| == n ==> FullStop(start, fed', n, s.eof, s.pending)
    ensures outcome == Filled ==>
      |s.refills| < |old(s.refills)| || (s.refills == old(s.refills) && old(s.pending) != [])
  {
    fed' := fed;
    outcome := Filled;
    RefilledDryMore(start, fed, prev, |drained|);
    if s.Available() == 0 {
      if !s.eof {
        var accepted, r := Replenish(s, need, script, start, fed, drained);
        Refilled(start, fed, r, drained[..prev], drained);
        ShortSnoc(start, fed, r, prev, n);
        fed' := fed + [r];
        if !accepted {
          outcome := Aborted;
        }
      } else {
        // The caller's NMIX_Pause(s) follows; setting bytes_written to
        // buffer_size then only ends this loop.
        assert fed != [] ==> |start + Delivered(fed[..|fed| - 1])| <= prev;
        outcome := Ended;
      }
    }
  }

  /** A refill r made when everything before it was drained (d0 samples,
      `drained` once the chunk before it was taken), with eof clear, keeps
      the record of refills: none but the last set eof, and each came when
      all before it had been drained; if r set eof it did so as the samples
      drained reached their count. */
  lemma Refilled(start: seq<real>, fed: seq<Refill>, r: Refill, d0: seq<real>, drained: seq<real>)
    requires !SetsEof(fed) && |d0| <= |drained| && start + Delivered(fed) == drained
    requires EofOnlyLast(fed) && RefilledDry(start, fed, |d0|)
    ensures EofOnlyLast(fed + [r]) && RefilledDry(start, fed + [r], |drained|)
    ensures !r.eof || EofAtFull(start, fed + [r], |drained|)
    ensures RefilledAtFull(start, fed + [r], |drained|)
  {
    assert (fed + [r])[..|fed|] == fed;
    if fed != [] {
      assert !fed[|fed| - 1].eof;
    }
    EofOnlyLastSnoc(fed, r);
    RefilledDryMore(start, fed, |d0|, |drained|);
    RefilledDrySnoc(start, fed, r, |drained|);
    if r.eof {
      EofAtFullSnoc(start, fed, r, drained);
    }
  }

  lemma EofAtFullSnoc(start: seq<real>, fed: seq<Refill>, r: Refill, drained: seq<real>)
    requires r.eof && start + Delivered(fed) == drained
    ensures EofAtFull(start, fed + [r], |drained|)
  {
    assert (fed + [r])[..|fed|] == fed;
  }

  lemma EofOnlyLastSnoc(fed: seq<Refill>, r: Refill)
    requires EofOnlyLast(fed) && (fed != [] ==> !fed[|fed| - 1].eof)
    ensures EofOnlyLast(fed + [r])
  {
    var fed' := fed + [r];
    assert fed'[..|fed|] == fed;
    if fed != [] {
      assert fed'[|fed'| - 2] == fed[|fed| - 1];
    }
  }

  lemma RefilledDrySnoc(start: seq<real>, fed: seq<Refill>, r: Refill, d: nat)
    requires RefilledDry(start, fed, d) && |start + Delivered(fed)| <= d
    ensures RefilledDry(start, fed + [r], d)
  {
    assert (fed + [r])[..|fed|] == fed;
  }

  /** The refill of a source whose converter ran dry (SDL_nmix.c:76-83): the
      source callback runs and its buffer is Put into the converter. A source
      that could supply `need` more bytes still can after an accepted refill.
      `fed` and `drained` are the refills performed and the samples drained
      so far in this pass, from converter contents `start` and refills
      `script`; both accounts stay balanced with the new refill r. */
  method Replenish(s: Source, ghost need: int, ghost script: seq<Refill>, ghost start: seq<real>,
                   ghost fed: seq<Refill>, ghost drained: seq<real>) returns (accepted: bool, ghost r: Refill)
    requires s.pending == [] && !s.eof && need >= 0 && s.Supplies(need)
    requires script == fed + s.refills && start + Delivered(fed) == drained
    modifies s`pending, s`eof, s`refills
    ensures script == fed + [r] + s.refills
    ensures start + Delivered(fed + [r]) == drained + s.pending
    ensures s.eof == r.eof && accepted == r.accepted
    ensures SetsEof(fed + [r]) == (SetsEof(fed) || s.eof)
    ensures accepted ==> s.Supplies(need)
  {
    r := s.refills[0];
    ghost var rest := s.refills[1..];
    assert s.refills == [r] + rest && s.refills[..1] == [r];
    if Stops(s.refills) && !r.eof && r.accepted {
      StopsLater(s.refills);
    }
    DeliveredAppend([r], rest);
    accepted := s.Feed();
    assert s.pending == Delivered([r]) && s.refills == rest;
    assert script == (fed + [r]) + rest;
    DeliveredSnoc(start, fed, r);
    SetsEofSnoc(fed, r);
  }

  function Min(a: int, b: int): int {
    if a < b then a else b
  }

  /** After the pointer writes of NMIX_Pause on the source at position k,
      every live source's fields hold its pointers in the unlinked shape. */
  lemma UnthreadedLinks(L: ListShape, k: int)
    requires 0 <= k < |L.list|
    requires forall t :: t in L.live && t != L.list[k] && t != L.nexts[L.list[k]] ==> t.prev == L.prevs[t]
    requires forall t :: t in L.live && t != L.list[k] && t != L.prevs[L.list[k]] ==> t.next == L.nexts[t]
    requires L.list[k].prev == null && L.list[k].next == null
    requires L.nexts[L.list[k]] != null ==> L.nexts[L.list[k]].prev == L.prevs[L.list[k]]
    requires L.prevs[L.list[k]] != null ==> L.prevs[L.list[k]].next == L.nexts[L.list[k]]
    ensures forall t :: t in L.live ==> t.prev == Unlinked(L, k).prevs[t] && t.next == Unlinked(L, k).nexts[t]
  {
    forall t | t in L.live ensures t.prev == Unlinked(L, k).prevs[t] && t.next == Unlinked(L, k).nexts[t] {
      UnlinkedPrevs(L, k, t);
      UnlinkedNexts(L, k, t);
    }
  }

  class Mixer {
    /** A device is open (audio_device != 0). */
    var open: bool
    /** The obtained device spec: rate, period in frames, period in bytes. */
    var freq: int
    var samples: int
    var size: nat
    var masterGain: Gain
    /** The head of the playing list (playing_sources). */
    var playing: Source?
    /** The shape of the playing list, whose links are kept well formed by
        its type. */
    ghost var Links: ListShape

    /** The playing list in order, head first. */
    ghost function Playing(): seq<Source>
      reads this`Links
    {
      Links.list
    }

    /** Every source created and not yet freed. */
    ghost function Sources(): set<Source>
      reads this`Links
    {
      Links.live
    }

    /** The heap agrees with the shape: the head field is its head, and
        every live source's prev and next fields hold its pointers. */
    ghost predicate Linked()
      reads this`playing, this`Links, Links.live`prev, Links.live`next
    {
      Links.head == playing &&
      (forall t {:trigger t.prev} :: t in Links.live ==> t in Links.prevs && t.prev == Links.prevs[t]) &&
      (forall t {:trigger t.next} :: t in Links.live ==> t in Links.nexts && t.next == Links.nexts[t])
    }

    /** Fields that hold the pointers of the shape make it the list's shape. */
    lemma Spelled(S: set<Source>)
      requires S == Links.live
      requires playing == Links.head
      requires forall t :: t in S ==> t.prev == Links.prevs[t]
      requires forall t :: t in S ==> t.next == Links.nexts[t]
      ensures Linked()
    {
    }

    ghost predicate Valid()
      reads this, Links.live`prev, Links.live`next
    {
      Linked() &&
      (open ==> freq > 0 && samples > 0 && size == samples * FrameBytes)
    }

    /** The static initial state: no device, master gain 1, nothing playing. */
    constructor ()
      ensures Valid() && !open && masterGain == 1.0
      ensures Playing() == [] && Sources() == {}
    {
      open := false;
      freq, samples, size := 0, 0, 0;
      masterGain := 1.0;
      playing := null;
      Links := Shape([], {}, null, map[], map[]);
    }

    /** NMIX_OpenAudio, state part: fails when a device is already open or
        the device is refused; otherwise records the obtained spec. The
        output is always stereo float, so a period is samples * 8 bytes. */
    method OpenAudio(device: Device) returns (status: int)
      requires Valid() && device.Sane()
      modifies this`open, this`freq, this`samples, this`size
      ensures Valid()
      ensures status == 0 || status == -1
      ensures status == 0 <==> !old(open) && device.Granted?
      ensures old(open) ==> open && freq == old(freq) && samples == old(samples) && size == old(size)
      ensures !old(open) && device.Refused? ==> !open
      ensures status == 0 ==> open && freq == device.freq && samples == device.samples && size == device.samples * FrameBytes
    {
      if open {
        return -1;
      }
      match device
      case Refused =>
        return -1;
      case Granted(f, n) =>
        freq, samples, size := f, n, n * FrameBytes;
        open := true;
        return 0;
    }

    /** NMIX_CloseAudio, state part: fails when no device is open. */
    method CloseAudio() returns (status: int)
      requires Valid()
      modifies this`open
      ensures Valid() && !open
      ensures status == (if old(open) then 0 else -1)
    {
      if !open {
        return -1;
      }
      open := false;
      return 0;
    }

    /** NMIX_GetMasterGain: always in [0, 2]. */
    function GetMasterGain(): (g: real)
      reads this, Links.live`prev, Links.live`next
      requires Valid()
      ensures 0.0 <= g <= 2.0
      ensures g == masterGain
    {
      masterGain
    }

    /** NMIX_SetMasterGain: stores the gain clamped to [0, 2]. */
    method SetMasterGain(gain: real)
      requires Valid()
      modifies this`masterGain
      ensures Valid() && GetMasterGain() == Clamp(gain, 0.0, 2.0)
      ensures 0.0 <= gain <= 2.0 ==> GetMasterGain() == gain
    {
      masterGain := Clamp(gain, 0.0, 2.0);
    }

    /** NMIX_IsPlaying: the source is the head or has a predecessor, which
        under the list invariant is exactly membership in the list. */
    function IsPlaying(s: Source?): (b: bool)
      reads this`playing, this`Links, Links.live`prev, Links.live`next
      requires Linked() && (s == null || s in Sources())
      ensures b <==> s != null && s in Playing()
    {
      if s == null then false
      else
        Member(Links.list, Links.live, Links.head, Links.prevs, Links.nexts, s);
        s == playing || s.prev != null
    }

    /** NMIX_NewSource: no source without an open device, nor when an
        allocation or SDL_NewAudioStream fails (`streamOk` false); otherwise
        a new, unlinked source with the documented defaults, whose callback
        buffer holds rate * samples / freq frames (truncated) of its own
        format and whose output chunk is one device period. */
    method NewSource(format: Format, channels: nat, rate: int, refills: seq<Refill>, streamOk: bool) returns (s: Source?)
      requires Valid() && channels < 256
      modifies this`Links
      ensures Valid() && Playing() == old(Playing())
      ensures s == null <==> !open || !streamOk
      ensures s == null ==> Sources() == old(Sources())
      ensures s != null ==> fresh(s) && Sources() == old(Sources()) + {s}
      ensures s != null ==> !IsPlaying(s) && !s.eof && s.pending == [] && s.refills == refills
      ensures s != null ==> GetPan(s) == 0.0 && GetGain(s) == 1.0
      ensures s != null ==> s.format == format && s.channels == channels && s.rate == rate
      ensures s != null ==> s.inBufferSize == InBufferSize(rate, samples, freq, channels, format)
      ensures s != null ==> s.outBufferSize == size
    {
      if !open {
        return null;
      }
      var inFrames := CDiv(rate * samples, freq);
      var inBufferSize := inFrames * channels * SampleLen(format);
      if !streamOk {
        return null;
      }
      s := new Source(format, channels, rate, inBufferSize, size, refills);
      Links := Added(Links, s);
    }

    /** NMIX_FreeSource, registry part: a playing source is paused first,
        then the source is gone. */
    method FreeSource(s: Source?)
      requires Valid() && (s == null || s in Sources())
      modifies this`playing, this`Links, Links.live`prev, Links.live`next
      ensures Valid()
      ensures s == null ==> Playing() == old(Playing()) && Sources() == old(Sources())
      ensures s != null ==> Playing() == Without<Source>(old(Playing()), s) && Sources() == old(Sources()) - {s}
    {
      if s == null {
        return;
      }
      if IsPlaying(s) {
        Pause(s);
      }
      Links := Removed(Links, s);
    }

    /** NMIX_Play: -1 for no source or a source already playing (the list
        is left as it is); otherwise clears eof, appends the source at the
        tail, and returns 0. */
    method Play(s: Source?) returns (status: int)
      requires Valid() && (s == null || s in Sources())
      modifies this`playing, this`Links, Links.live`prev, Links.live`next, s
      ensures Valid() && Sources() == old(Sources())
      ensures status == (if s != null && s !in old(Playing()) then 0 else -1)
      ensures status == -1 ==> Playing() == old(Playing()) && (s != null ==> s.eof == old(s.eof))
      ensures status == 0 ==> Playing() == old(Playing()) + [s] && !s.eof
      ensures s != null ==> IsPlaying(s)
      ensures s != null ==> unchanged(s`pan, s`gain, s`pending, s`refills)
    {
      if s == null {
        return -1;
      }
      if IsPlaying(s) {
        return -1;
      }
      s.eof := false;
      Attach(s);
      return 0;
    }

    /** The appending of NMIX_Play for a source not playing. */
    method Attach(s: Source)
      requires Valid() && s in Sources() && s !in Playing()
      modifies this`playing, this`Links, Links.live`prev, Links.live`next
      ensures Valid() && Sources() == old(Sources())
      ensures Playing() == old(Playing()) + [s]
    {
      ghost var L := Links;
      var v: Source? := null;
      if playing != null {
        v := TailSource();
      }
      Thread(v, s, L);
      Links := Appended(L, s);
      Spelled(L.live);
    }

    /** The walk of NMIX_Play from the head along next pointers: it stops
        at the last playing source. */
    method TailSource() returns (v: Source)
      requires Valid() && playing != null
      ensures Playing() != [] && v == Playing()[|Playing()| - 1]
    {
      v := playing;
      ghost var i := 0;
      while v.next != null
        invariant 0 <= i < |Links.list| && v == Links.list[i]
        decreases |Links.list| - i
      {
        Tail(Links.list, Links.live, Links.head, Links.prevs, Links.nexts, i);
        v := v.next;
        i := i + 1;
      }
      Tail(Links.list, Links.live, Links.head, Links.prevs, Links.nexts, i);
    }

    /** The pointer writes of NMIX_Play appending s, an unlisted source of
        the list shape L that the fields spell out: s becomes the head of an
        empty list, or goes after the tail v; the fields then spell out the
        appended shape. */
    method Thread(v: Source?, s: Source, ghost L: ListShape)
      requires s in L.live && s !in L.list && playing == L.head
      requires v == if L.list == [] then null else L.list[|L.list| - 1]
      requires forall t :: t in L.live ==> t.prev == L.prevs[t] && t.next == L.nexts[t]
      modifies this`playing, s`prev, (if v == null then {} else {v})`next
      ensures playing == Appended(L, s).head
      ensures forall t :: t in L.live ==> t.prev == Appended(L, s).prevs[t] && t.next == Appended(L, s).nexts[t]
    {
      if v == null {
        playing := s;
      } else {
        v.next := s;
        s.prev := v;
      }
      forall t | t in L.live
        ensures t.prev == Appended(L, s).prevs[t] && t.next == Appended(L, s).nexts[t]
      {
        AppendedLinks(L, s, t);
      }
    }

    /** The pointer writes of NMIX_Pause on the source at position k of
        the list shape L that the fields spell out: the successor takes its
        predecessor, the predecessor (or the head) takes its successor, and
        it loses both links, so the fields then spell out the unlinked
        shape. */
    method Unthread(s: Source, ghost L: ListShape, ghost k: int)
      requires 0 <= k < |L.list| && s == L.list[k] && playing == L.head
      requires forall t :: t in L.live ==> t.prev == L.prevs[t] && t.next == L.nexts[t]
      modifies this`playing, s`prev, s`next
      modifies (if s.next == null then {} else {s.next})`prev, (if s.prev == null then {} else {s.prev})`next
      ensures playing == Unlinked(L, k).head
      ensures forall t :: t in L.live ==> t.prev == Unlinked(L, k).prevs[t] && t.next == Unlinked(L, k).nexts[t]
    {
      Neighbours(L, k);
      if s.next != null {
        s.next.prev := s.prev;
      }
      if s.prev != null {
        s.prev.next := s.next;
      } else {
        playing := s.next;
      }
      s.prev := null;
      s.next := null;
      UnthreadedLinks(L, k);
    }

    /** NMIX_Pause: no effect on no source or a source not playing;
        otherwise unlinks exactly that source, the others keeping their
        order, moves the head on if it was first, and clears its links. */
    method Pause(s: Source?)
      requires Valid() && (s == null || s in Sources())
      modifies this`playing, this`Links, Links.live`prev, Links.live`next
      ensures Valid() && Sources() == old(Sources())
      ensures s == null ==> Playing() == old(Playing())
      ensures s != null ==> Playing() == Without<Source>(old(Playing()), s) && !IsPlaying(s)
      ensures forall t: Source :: old(allocated(t)) ==> StatusOf(t) == old(StatusOf(t))
    {
      if s == null {
        return;
      }
      if !IsPlaying(s) {
        return;
      }
      Detach(s);
    }

    /** The unlinking of NMIX_Pause for a playing source. */
    method Detach(s: Source)
      requires Valid() && s in Playing()
      modifies this`playing, this`Links, Links.live`prev, Links.live`next
      ensures Valid() && Sources() == old(Sources())
      ensures Playing() == Without(old(Playing()), s) && s !in Playing()
    {
      ghost var L := Links;
      ghost var k :| 0 <= k < |L.list| && L.list[k] == s;
      ghost var U := Unlinked(L, k);
      UnlinkedList(L, k);
      Unthread(s, L, k);
      Reshape(U);
    }

    /** The shape U, whose pointers the fields now hold, becomes the
        list's shape. */
    ghost method Reshape(U: ListShape)
      requires playing == U.head
      requires forall t :: t in U.live ==> t.prev == U.prevs[t] && t.next == U.nexts[t]
      modifies this`Links
      ensures Links == U && Linked()
    {
      Links := U;
      Spelled(U.live);
    }

    /** nmix_callback: silences the period, then walks the playing list
        from its head and gives each source one pass (Walk). The period is
        the reference rendering of the passes' layers, so every sample is
        in [-1, 1], and with nothing playing it is silence. `found` holds
        the statuses of the playing sources on entry; the passes follow the
        old playing list in order and start from those statuses, all of the
        list unless the last pass was aborted; exactly the sources that
        ended leave the list, the others keeping their order; each visited
        source is left as its pass says, and the playing sources not visited
        and every source not playing are left as they were. Every
        playing source must be able to supply a whole period, or the C loop
        would spin on it. */
    method Callback(out: array<real>) returns (ghost passes: seq<Pass>, ghost found: seq<Status>)
      requires Valid() && open && SampleBytes * out.Length == size
      requires forall t :: t in Playing() ==> t.Supplies(size)
      modifies out, this`playing, this`Links, Links.live`prev, Links.live`next
      modifies Links.live`pending, Links.live`eof, Links.live`refills
      ensures Valid() && Sources() == old(Sources())
      ensures found == old(Snapshot(Playing()))
      ensures out[..] == Render(out.Length, Layers(passes, masterGain))
      ensures InRange(out[..])
      ensures old(Playing()) == [] ==> out[..] == Zeros(out.Length)
      ensures Walked(old(Playing()), found, passes, out.Length)
      ensures Playing() == Remaining(old(Playing()), passes)
      ensures Playing() == Drop(old(Playing())[..|passes|], EndedSources(old(Playing()), passes)) + old(Playing())[|passes|..]
      ensures Snapshot(old(Playing())) == Statuses(found, passes)
      ensures forall t :: t in old(Sources()) && t !in old(Playing()) ==> StatusOf(t) == old(StatusOf(t))
    {
      ghost var P0 := Playing();
      ghost var idle := map t | t in Sources() && t !in P0 :: StatusOf(t);
      found := Snapshot(P0);
      forall j | 0 <= j < |P0| ensures Suffices(found[j].eof, found[j].pending, found[j].refills, size) {
        assert P0[j].Supplies(size);
      }
      Silence(out);
      passes := [];
      LinkedDistinct(P0, Links.nexts);
      if playing != null {
        passes := Walk(out, P0, found, idle);
      }
      RenderBounded(out.Length, Layers(passes, masterGain));
      RemainingOrder(P0, passes);
      forall t | t in old(Sources()) && t !in P0
        ensures StatusOf(t) == old(StatusOf(t))
      {
        assert t in idle && idle[t] == old(StatusOf(t));
      }
    }

    /** The callback's outer loop: from the head of the playing list P0,
        whose sources held the statuses `found`, each source gets a pass,
        its successor having been read first; a refused refill ends the
        walk. */
    method Walk(out: array<real>, ghost P0: seq<Source>, ghost found: seq<Status>, ghost idle: map<Source, Status>)
      returns (ghost passes: seq<Pass>)
      requires Idle(idle) && forall t :: t in idle ==> t !in P0
      requires Valid() && open && SampleBytes * out.Length == size
      requires P0 == Playing() && |found| == |P0|
      requires Distinct(P0)
      requires Snapshot(P0) == found
      requires forall j :: 0 <= j < |P0| ==> Suffices(found[j].eof, found[j].pending, found[j].refills, size)
      requires out[..] == Zeros(out.Length)
      modifies out, this`playing, this`Links, Links.live`prev, Links.live`next
      modifies (set t | t in P0)`pending, (set t | t in P0)`eof, (set t | t in P0)`refills
      ensures Valid() && Sources() == old(Sources())
      ensures out[..] == Render(out.Length, Layers(passes, masterGain))
      ensures Walked(P0, found, passes, out.Length)
      ensures Playing() == Remaining(P0, passes)
      ensures Snapshot(P0) == Statuses(found, passes)
      ensures Idle(idle)
    {
      passes := [];
      ghost var layers: seq<seq<real>> := [];
      var s := playing;
      while s != null
        invariant Walking(out, P0, found, old(Sources()), passes, layers)
        invariant s == if |passes| < |P0| then P0[|passes|] else null
        invariant passes != [] ==> passes[|passes| - 1].outcome != Aborted
        invariant Idle(idle)
        decreases |P0| - |passes|
      {
        var outcome;
        s, outcome, passes, layers := Step(s, out, P0, found, old(Sources()), passes, layers, idle);
        if outcome == Aborted {
          return;
        }
        }
    }

    /** Where the walk stands after the passes so far, whose renderings
        are `layers`: the mixer is valid with the same sources S0, the
        sources that ended have left the list P0, the passes follow P0 from
        the statuses `found` and left them as the passes say, and the period
        is the rendering of the layers. */
    ghost predicate Walking(out: array<real>, P0: seq<Source>, found: seq<Status>, S0: set<Source>,
                            passes: seq<Pass>, layers: seq<seq<real>>)
      reads this, Links.live`prev, Links.live`next, out, P0
    {
      Valid() && Sources() == S0 && |found| == |P0| && |passes| <= |P0| &&
      Playing() == Remaining(P0, passes) && Recorded(found, passes, out.Length) &&
      Snapshot(P0) == Statuses(found, passes) &&
      layers == Layers(passes, masterGain) && out[..] == Render(out.Length, layers)
    }

    /** One iteration of the callback's walk: the pass of Visit, which keeps
        the walk's record, its statuses and its rendering up to date. */
    method Step(s: Source, out: array<real>, ghost P0: seq<Source>, ghost found: seq<Status>, ghost S0: set<Source>,
                ghost passes: seq<Pass>, ghost layers: seq<seq<real>>, ghost idle: map<Source, Status>)
      returns (next: Source?, outcome: Outcome, ghost passes': seq<Pass>, ghost layers': seq<seq<real>>)
      requires Idle(idle) && s !in idle
      requires open && SampleBytes * out.Length == size
      requires Walking(out, P0, found, S0, passes, layers)
      requires |passes| < |P0| && s == P0[|passes|]
      requires Distinct(P0)
      requires passes != [] ==> passes[|passes| - 1].outcome != Aborted
      requires forall j :: 0 <= j < |P0| ==> Suffices(found[j].eof, found[j].pending, found[j].refills, size)
      modifies out, s`pending, s`eof, s`refills, this`playing, this`Links, Links.live`prev, Links.live`next
      ensures |passes'| == |passes| + 1 && passes'[..|passes|] == passes
      ensures next == if |passes'| < |P0| then P0[|passes'|] else null
      ensures passes'[|passes|].outcome == outcome
      ensures Walking(out, P0, found, S0, passes', layers')
      ensures Idle(idle)
    {
      ghost var k := |passes|;
      assert Snapshot(P0)[k] == found[k];
      ghost var pos := Positions(P0);
      ghost var snap, period := Snapshot(P0), out[..];
      ghost var p;
      next, outcome, p := Visit(s, out, P0, passes, pos, idle);
      Extended(found, passes, p, layers, snap, Snapshot(P0), period, out[..], out.Length, masterGain);
      passes', layers' := passes + [p], layers + [Layer(p, masterGain)];
      assert passes'[..|passes|] == passes;
    }

    /** One step of the callback's walk: the successor of the source at
        position k = |passes| of the walked list P0 is read first, then the
        source gets its pass, which leaves it out of the list if it
        ended. */
    method Visit(s: Source, out: array<real>, ghost P0: seq<Source>, ghost passes: seq<Pass>, ghost pos: map<Source, int>,
                 ghost idle: map<Source, Status>)
      returns (next: Source?, outcome: Outcome, ghost p: Pass)
      requires Idle(idle) && s !in idle
      requires Valid() && open && SampleBytes * out.Length == size
      requires |passes| < |P0| && s == P0[|passes|] && s.Supplies(size)
      requires forall i :: 0 <= i < |P0| ==> P0[i] in pos && pos[P0[i]] == i
      requires Playing() == Remaining(P0, passes)
      modifies out, s`pending, s`eof, s`refills, this`playing, this`Links, Links.live`prev, Links.live`next
      ensures Valid() && Sources() == old(Sources())
      ensures next == if |passes| + 1 < |P0| then P0[|passes| + 1] else null
      ensures p.outcome == outcome && Accounts(p, out.Length)
      ensures p.before == old(StatusOf(s)) && p.after == StatusOf(s)
      ensures Snapshot(P0) == old(Snapshot(P0))[|passes| := StatusOf(s)]
      ensures out[..] == MixAt(old(out[..]), 0, Layer(p, masterGain))
      ensures Playing() == Remaining(P0, passes + [p])
      ensures Idle(idle)
    {
      WalkNext(Links, P0, passes, pos);
      next := s.next;
      outcome, p := Revisit(s, out, P0, passes, pos, idle);
    }

    /** The pass of Visit, once the successor was read: only the source's
        status changes, and it leaves the list if it ended. */
    method Revisit(s: Source, out: array<real>, ghost P0: seq<Source>, ghost passes: seq<Pass>, ghost pos: map<Source, int>,
                   ghost idle: map<Source, Status>)
      returns (outcome: Outcome, ghost p: Pass)
      requires Idle(idle) && s !in idle
      requires Valid() && open && SampleBytes * out.Length == size
      requires |passes| < |P0| && s == P0[|passes|] && s.Supplies(size)
      requires forall i :: 0 <= i < |P0| ==> P0[i] in pos && pos[P0[i]] == i
      requires Playing() == Remaining(P0, passes) && s in Playing()
      modifies out, s`pending, s`eof, s`refills, this`playing, this`Links, Links.live`prev, Links.live`next
      ensures Valid() && Sources() == old(Sources())
      ensures p.outcome == outcome && Accounts(p, out.Length)
      ensures p.before == old(StatusOf(s)) && p.after == StatusOf(s)
      ensures Snapshot(P0) == old(Snapshot(P0))[|passes| := StatusOf(s)]
      ensures out[..] == MixAt(old(out[..]), 0, Layer(p, masterGain))
      ensures Playing() == Remaining(P0, passes + [p])
      ensures Idle(idle)
    {
      outcome, p := MixSource(s, out, idle);
      assert (passes + [p])[..|passes|] == passes;
      forall j | 0 <= j < |P0| && j != |passes| ensures P0[j] != s {
        assert pos[P0[j]] != pos[s];
      }
      UpdatedAt(old(Snapshot(P0)), Snapshot(P0), |passes|, StatusOf(s));
    }

    /** One pass of nmix_callback's inner loop over the playing source s
        (Stream), with the NMIX_Pause of a source found at its end. */
    method MixSource(s: Source, out: array<real>, ghost idle: map<Source, Status>) returns (outcome: Outcome, ghost p: Pass)
      requires Idle(idle) && s !in idle
      requires Valid() && open && s in Playing()
      requires SampleBytes * out.Length == size && s.Supplies(size)
      modifies out, s`pending, s`eof, s`refills, this`playing, this`Links, Links.live`prev, Links.live`next
      ensures Valid() && Sources() == old(Sources())
      ensures p.outcome == outcome && Accounts(p, out.Length)
      ensures p.before == old(StatusOf(s)) && p.after == StatusOf(s)
      ensures out[..] == MixAt(old(out[..]), 0, Layer(p, masterGain))
      ensures outcome == Ended ==> Playing() == Without(old(Playing()), s)
      ensures outcome != Ended ==> Playing() == old(Playing())
      ensures forall t: Source :: old(allocated(t)) && t != s ==> StatusOf(t) == old(StatusOf(t))
      ensures Idle(idle)
    {
      ghost var before := StatusOf(s);
      ghost var drained, fed;
      outcome, drained, fed := Stream(s, out, masterGain);
      if outcome == Ended {
        Pause(s);
      }
      p := Pass(before, StatusOf(s), drained, fed, outcome);
      forall t | t in idle
        ensures StatusOf(t) == idle[t]
      {
        assert t != s && old(StatusOf(t)) == idle[t];
      }
    }
  }
}
