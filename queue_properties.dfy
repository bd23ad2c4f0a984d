/** What the operations of module QueueModel guarantee, one group per
    operation of `Queue`, then the invariants of whole call sequences. The
    source's defects are stated here as they are, not repaired. */
module QueueProperties {
  import opened QueueModel

  // ---------------------------------------------------------------- toggles

  /** Each toggle returns the new value of the one flag it writes and leaves
      every other field alone; called twice without `status` it restores the
      flag. */
  lemma ToggleContract(s: QueueState, status: Option<bool>)
    ensures var (t, r) := ToggleLoop(s, status);
      t == s.(loopQueue := r) && (r <==> status == Some(true) || !s.loopQueue)
    ensures var (t, r) := ToggleRepeat(s, status);
      t == s.(loopCurrent := r) && (r <==> status == Some(true) || !s.loopCurrent)
    ensures ToggleLoop(ToggleLoop(s, None).0, None).0 == s
    ensures ToggleRepeat(ToggleRepeat(s, None).0, None).0 == s
  {
  }

  /** A forced `False` is not obeyed: it negates the flag like an absent
      `status`, so a set flag cannot be forced off. */
  lemma ForcedFalseNegates(s: QueueState)
    ensures ToggleLoop(s, Some(false)) == ToggleLoop(s, None)
    ensures s.loopQueue ==> !ToggleLoop(s, Some(false)).1
    ensures !s.loopQueue ==> ToggleLoop(s, Some(false)).1
    ensures ToggleRepeat(s, Some(false)) == ToggleRepeat(s, None)
  {
  }

  /** `toggle_shuffle` behaves exactly as `toggle_repeat`: it flips the
      repeat flag and never touches `_shuffle`. */
  lemma ToggleShuffleIsRepeat(s: QueueState, status: Option<bool>)
    ensures ToggleShuffle(s, status) == ToggleRepeat(s, status)
    ensures ToggleShuffle(s, status).0.shuffle == s.shuffle
  {
  }

  // ------------------------------------------------------------- admission

  /** The admission policy of `_add_to_queue`, check by check, whatever the
      state: a rejection changes nothing, an acceptance appends at the tail
      and adds the track's whole seconds to the counter. The duration check
      is decided before the size check. */
  lemma AdmitPolicy(s: QueueState, t: Track)
    ensures Seconds(t) > MAX_TRACK_SECONDS ==> AddToQueue(s, t) == (s, TOO_LONG)
    ensures Seconds(t) <= MAX_TRACK_SECONDS && s.queueLength + Seconds(t) >= MAX_QUEUE_SECONDS
      ==> AddToQueue(s, t) == (s, DURATION_CAP)
    ensures (Seconds(t) <= MAX_TRACK_SECONDS && s.queueLength + Seconds(t) < MAX_QUEUE_SECONDS
             && |s.items| > FULL_ABOVE) ==> AddToQueue(s, t) == (s, QUEUE_FULL)
    ensures AddToQueue(s, t).1 == ADDED <==>
      Seconds(t) <= MAX_TRACK_SECONDS && s.queueLength + Seconds(t) < MAX_QUEUE_SECONDS
      && |s.items| <= FULL_ABOVE
    ensures AddToQueue(s, t).1 == ADDED ==>
      AddToQueue(s, t).0 == s.(items := s.items + [t], queueLength := s.queueLength + Seconds(t))
  {
  }

  /** Admission alone never takes the list past 37 entries, keeps the
      counter below the duration cap and keeps the counter equal to the
      seconds in the list. */
  lemma AdmitKeepsInvariants(s: QueueState, t: Track)
    ensures |AddToQueue(s, t).0.items| <= if |s.items| > FULL_ABOVE then |s.items| else FULL_ABOVE + 1
    ensures Bounded(s) ==> Bounded(AddToQueue(s, t).0)
    ensures CounterMatches(s) ==> CounterMatches(AddToQueue(s, t).0)
  {
    var (s1, ret) := AddToQueue(s, t);
    if ret == ADDED {
      SumSecondsAppend(s.items, t);
    }
  }

  lemma {:induction false} SumSecondsAppend(items: seq<Track>, t: Track)
    ensures SumSeconds(items + [t]) == SumSeconds(items) + Seconds(t)
    decreases |items|
  {
    if items == [] {
      assert items + [t] == [t];
      assert [t][1..] == [];
    } else {
      assert (items + [t])[1..] == items[1..] + [t];
      SumSecondsAppend(items[1..], t);
    }
  }

  // ------------------------------------------------------------ batch add

  /** Once the list holds more than 36 tracks a playlist adds nothing and
      changes nothing: every track is rejected. */
  lemma {:induction false} AddTracksWhenFull(s: QueueState, tracks: seq<Track>)
    requires |s.items| > FULL_ABOVE
    ensures AddTracks(s, tracks) == (s, 0)
    decreases |tracks|
  {
    if tracks != [] {
      var (s1, ret) := AddToQueue(s, tracks[0]);
      assert s1 == s;
      if ret != QUEUE_FULL {
        AddTracksWhenFull(s1, tracks[1..]);
      }
    }
  }

  /** The playlist loop without its `break`: every track is offered. */
  function AddAllTracks(s: QueueState, tracks: seq<Track>): (QueueState, nat)
    decreases |tracks|
  {
    if tracks == [] then (s, 0)
    else
      var (s1, ret) := AddToQueue(s, tracks[0]);
      var (s2, n) := AddAllTracks(s1, tracks[1..]);
      (s2, if ret == ADDED then n + 1 else n)
  }

  /** The `break` on a full queue only saves work: offering the remaining
      tracks as well would give the same state and the same count. */
  lemma {:induction false} BreakOnlySavesWork(s: QueueState, tracks: seq<Track>)
    ensures AddTracks(s, tracks) == AddAllTracks(s, tracks)
    decreases |tracks|
  {
    if tracks != [] {
      var (s1, ret) := AddToQueue(s, tracks[0]);
      if ret == QUEUE_FULL {
        assert s1 == s && |s.items| > FULL_ABOVE;
        AddAllWhenFull(s1, tracks[1..]);
      } else {
        BreakOnlySavesWork(s1, tracks[1..]);
      }
    }
  }

  lemma {:induction false} AddAllWhenFull(s: QueueState, tracks: seq<Track>)
    requires |s.items| > FULL_ABOVE
    ensures AddAllTracks(s, tracks) == (s, 0)
    decreases |tracks|
  {
    if tracks != [] {
      AddAllWhenFull(AddToQueue(s, tracks[0]).0, tracks[1..]);
    }
  }

  /** The tracks a playlist adds are appended after the old list, in
      playlist order (a subsequence of the playlist), each within the
      per-track cap; the count `add` reports is their number. */
  lemma {:induction false} AddTracksInOrder(s: QueueState, tracks: seq<Track>)
    ensures var (s1, n) := AddTracks(s, tracks);
      s1.items == s.items + s1.items[|s.items|..] && |s1.items[|s.items|..]| == n &&
      IsSubsequence(s1.items[|s.items|..], tracks) &&
      forall i :: |s.items| <= i < |s1.items| ==> Seconds(s1.items[i]) <= MAX_TRACK_SECONDS
    decreases |tracks|
  {
    var (s1, n) := AddTracks(s, tracks);
    if tracks == [] {
      assert s1.items[|s.items|..] == [];
    } else {
      var (t1, ret) := AddToQueue(s, tracks[0]);
      if ret == QUEUE_FULL {
        assert s1.items[|s.items|..] == [];
      } else {
        AddTracksInOrder(t1, tracks[1..]);
        var rest := s1.items[|t1.items|..];
        assert IsSubsequence(rest, tracks[1..]);
        if ret == ADDED {
          assert t1.items == s.items + [tracks[0]];
          assert s1.items[|s.items|..] == [tracks[0]] + rest;
          assert ([tracks[0]] + rest)[1..] == rest;
        } else {
          assert t1 == s;
        }
      }
    }
  }

  /** A playlist keeps the counter equal to the seconds in the list and
      keeps the admission bounds. */
  lemma {:induction false} AddTracksKeepsInvariants(s: QueueState, tracks: seq<Track>)
    ensures CounterMatches(s) ==> CounterMatches(AddTracks(s, tracks).0)
    ensures Bounded(s) ==> Bounded(AddTracks(s, tracks).0)
    decreases |tracks|
  {
    if tracks != [] {
      var (s1, ret) := AddToQueue(s, tracks[0]);
      AdmitKeepsInvariants(s, tracks[0]);
      if ret != QUEUE_FULL {
        AddTracksKeepsInvariants(s1, tracks[1..]);
      }
    }
  }

  /** `add` on each input shape: a single track yields an embed exactly when
      it was admitted; a non-empty playlist always yields an embed carrying
      the number of tracks appended; a list is its first element; anything
      else is `None` with no change. */
  lemma AddShapes(s: QueueState, data: AddInput)
    ensures data.Single? ==>
      (Add(s, data).0 == AddToQueue(s, data.track).0 &&
       (Add(s, data).1 != NoCard <==> AddToQueue(s, data.track).1 == ADDED))
    ensures data.Playlist? && data.tracks != [] ==>
      var (s1, out) := Add(s, data);
      out == PlaylistCard(data.name, |s1.items| - |s.items|)
    ensures data.Playlist? && data.tracks == [] ==> Add(s, data) == (s, AddIndexError)
    ensures data.Many? && data.elems != [] ==> Add(s, data) == Add(s, data.elems[0])
    ensures data.Many? && data.elems == [] ==> Add(s, data) == (s, AddIndexError)
    ensures data.Other? ==> Add(s, data) == (s, NoCard)
  {
  }

  /** `add` keeps the counter equal to the seconds in the list, keeps the
      admission bounds and leaves the mode flags alone. */
  lemma {:induction false} AddKeepsInvariants(s: QueueState, data: AddInput)
    ensures CounterMatches(s) ==> CounterMatches(Add(s, data).0)
    ensures Bounded(s) ==> Bounded(Add(s, data).0)
    ensures Add(s, data).0.shuffle == s.shuffle
    ensures Add(s, data).0.loopCurrent == s.loopCurrent
    decreases data
  {
    match data
    case Single(t) => AdmitKeepsInvariants(s, t);
    case Playlist(_, tracks) => AddTracksKeepsInvariants(s, tracks);
    case Many(elems) =>
      if elems != [] {
        AddKeepsInvariants(s, elems[0]);
      }
    case Other =>
  }

  // -------------------------------------------------------------- selection

  /** `next` on an empty list returns `None`; with repeat set it returns the
      head and changes nothing; otherwise FIFO removes the head and lowers
      the counter by the track's raw length in milliseconds. */
  lemma NextCases(s: QueueState, roll: nat)
    ensures s.items == [] ==> Next(s, roll) == (s, NoTrack)
    ensures s.items != [] && s.loopCurrent ==> Next(s, roll) == (s, Play(s.items[0]))
    ensures s.items != [] && !s.loopCurrent && !s.shuffle ==>
      Next(s, roll) == (s.(items := s.items[1..], queueLength := s.queueLength - s.items[0].length),
                        Play(s.items[0]))
  {
    if s.items != [] {
      assert s.items[..0] + s.items[1..] == s.items[1..];
    }
  }

  /** A track `next` returns was in the list; unless repeat is set, it is
      removed and the rest of the list is kept: the new list and that one
      track make up the old list exactly. */
  lemma NextRemovesOne(s: QueueState, roll: nat)
    ensures Next(s, roll).1.Play? ==> Next(s, roll).1.track in s.items
    ensures Next(s, roll).1.Play? && !s.loopCurrent ==>
      multiset(Next(s, roll).0.items) + multiset{Next(s, roll).1.track} == multiset(s.items)
  {
    if s.items != [] && !s.loopCurrent {
      var index := if s.shuffle then roll else 0;
      if index < |s.items| {
        var front, back := s.items[..index], s.items[index + 1..];
        assert s.items == front + [s.items[index]] + back;
        assert Next(s, roll).0.items == front + back;
      }
    }
  }

  /** With shuffle set, a roll inside the list removes and returns that
      track; the roll `len(_queue)`, which `randint(0, len(_queue))` can
      return, is past the end and makes `pop` raise, changing nothing. */
  lemma ShuffleRolls(s: QueueState, roll: nat)
    requires s.items != [] && !s.loopCurrent && s.shuffle
    ensures roll < |s.items| ==>
      Next(s, roll) == (s.(items := s.items[..roll] + s.items[roll + 1..],
                           queueLength := s.queueLength - s.items[roll].length),
                        Play(s.items[roll]))
    ensures roll == |s.items| ==> Next(s, roll) == (s, PopIndexError)
  {
  }

  /** `next` never reads `_loop_queue`: setting or clearing it changes
      neither the pick nor any other field. */
  lemma NextIgnoresLoopQueue(s: QueueState, roll: nat, b: bool)
    ensures Next(s.(loopQueue := b), roll).1 == Next(s, roll).1
    ensures Next(s.(loopQueue := b), roll).0 == Next(s, roll).0.(loopQueue := b)
  {
  }

  function Repeat(p: Pick, n: nat): (r: seq<Pick>)
    ensures |r| == n && forall i :: 0 <= i < n ==> r[i] == p
  {
    if n == 0 then [] else [p] + Repeat(p, n - 1)
  }

  /** With repeat set, any number of calls of `next` return the same head
      track and never change the state. */
  lemma {:induction false} RepeatIsStable(s: QueueState, n: nat)
    requires s.items != [] && s.loopCurrent
    ensures NextTimes(s, n) == (s, Repeat(Play(s.items[0]), n))
    decreases n
  {
    if n > 0 {
      RepeatIsStable(s, n - 1);
    }
  }

  /** The repeat flag does not repeat the track that is playing: `next`
      already popped that track when it handed it out, so turning repeat on
      afterwards makes `next` return the following track, or `None` when it
      was the only one. */
  lemma {:induction false} RepeatIsNotCurrent(s: QueueState, t: Track, rest: seq<Track>)
    requires s.items == [t] + rest && !s.loopCurrent && !s.shuffle
    ensures var s1 := ToggleRepeat(Next(s, 0).0, None).0;
      Next(s, 0).1 == Play(t) &&
      (rest == [] ==> Next(s1, 0).1 == NoTrack) &&
      (rest != [] ==> Next(s1, 0).1 == Play(rest[0]))
  {
    assert s.items[..0] + s.items[1..] == rest;
  }

  /** With repeat and shuffle off, `len(_queue)` calls of `next` return the
      tracks in insertion order and empty the list, and the counter ends
      lowered by the total length in milliseconds. */
  lemma {:induction false} FifoDrain(s: QueueState)
    requires !s.loopCurrent && !s.shuffle
    ensures var (s1, picks) := NextTimes(s, |s.items|);
      picks == Plays(s.items) && s1.items == [] &&
      s1.queueLength == s.queueLength - SumMillis(s.items) &&
      s1.loopQueue == s.loopQueue && s1.loopCurrent == s.loopCurrent && s1.shuffle == s.shuffle
    decreases |s.items|
  {
    if s.items != [] {
      var (s1, p) := Next(s, 0);
      assert s1.items == s.items[1..];
      FifoDrain(s1);
    }
  }

  /** The counter goes up by seconds but down by milliseconds: from a state
      where it equals the seconds in the list, a FIFO `next` keeps that
      equality exactly when the removed track has length 0. */
  lemma NextBreaksCounter(s: QueueState, roll: nat)
    requires CounterMatches(s) && s.items != [] && !s.loopCurrent && !s.shuffle
    ensures CounterMatches(Next(s, roll).0) <==> s.items[0].length == 0
  {
    var t := s.items[0];
    assert s.items[..0] + s.items[1..] == s.items[1..];
    assert SumSeconds(s.items) == Seconds(t) + SumSeconds(s.items[1..]);
    assert Next(s, roll).0.queueLength == SumSeconds(s.items[1..]) + Seconds(t) - t.length;
    if t.length > 0 {
      assert Seconds(t) * 1000 <= t.length;
      assert Seconds(t) < t.length;
    }
  }

  /** A concrete run: adding one five-second track from the initial state,
      then taking it with `next`, leaves the counter at -4995. */
  lemma CounterGoesNegative()
    ensures var s1 := Add(Initial, Single(Track(0, 5000))).0;
      s1.queueLength == 5 && CounterMatches(s1) &&
      Next(s1, 0) == (s1.(items := [], queueLength := -4995), Play(Track(0, 5000)))
  {
    var s1 := Add(Initial, Single(Track(0, 5000))).0;
    assert s1.items == [Track(0, 5000)];
    assert s1.items[..0] + s1.items[1..] == [];
    assert SumSeconds(s1.items[1..]) == 0;
  }

  // ------------------------------------------------- whole call sequences

  /** The bounds admission control enforces hold after any sequence of
      public calls: at most 37 tracks, counter below 7200. */
  lemma {:induction false} RunKeepsBounded(s: QueueState, ops: seq<Op>)
    requires Bounded(s)
    ensures Bounded(Run(s, ops))
    decreases |ops|
  {
    if ops != [] {
      if ops[0].AddOp? {
        AddKeepsInvariants(s, ops[0].data);
      }
      RunKeepsBounded(Step(s, ops[0]), ops[1..]);
    }
  }

  /** No public call changes `_shuffle`. */
  lemma {:induction false} RunKeepsShuffle(s: QueueState, ops: seq<Op>)
    ensures Run(s, ops).shuffle == s.shuffle
    decreases |ops|
  {
    if ops != [] {
      if ops[0].AddOp? {
        AddKeepsInvariants(s, ops[0].data);
      }
      RunKeepsShuffle(Step(s, ops[0]), ops[1..]);
    }
  }

  /** From any new queue, whatever the shared list holds, `_shuffle` is
      never set, so the shuffle branch of `next` is unreachable: whatever
      `randint` would return, `next` behaves as with roll 0. */
  lemma ShuffleUnreachable(shared: seq<Track>, ops: seq<Op>, roll: nat)
    ensures !Run(Fresh(shared), ops).shuffle
    ensures Next(Run(Fresh(shared), ops), roll) == Next(Run(Fresh(shared), ops), 0)
  {
    RunKeepsShuffle(Fresh(shared), ops);
  }
}
