/** The `Queue` class of dsmusic/music/queue.py: a list of tracks, a running
    duration counter and three mode flags, updated in place by its methods.
    Each method is proved to do what the matching function of QueueModel
    says; what those functions guarantee is proved in QueueProperties. */
module MusicQueue {
  import M = QueueModel
  import P = QueueProperties

  class Queue {
    // In the source these are class attributes, and `_queue` is one mutable
    // list shared by every `Queue` instance; this class models one instance,
    // and its constructor is given what that shared list holds at creation.
    var items: seq<M.Track>       // _queue
    var queueLength: int          // _queue_length
    var loopQueue: bool           // _loop_queue
    var loopCurrent: bool         // _loop_current
    var shuffle: bool             // _shuffle

    /** The fields as one value of the model. */
    function State(): M.QueueState
      reads this
    {
      M.QueueState(items, queueLength, loopQueue, loopCurrent, shuffle)
    }

    /** `Queue()`: the counter and the flags start from their defaults, but
        the list is the shared one, which an earlier instance may have left
        non-empty (`clean_queue` only creates a new instance). The counter
        then matches the list only if those tracks total 0 seconds. */
    constructor (shared: seq<M.Track>)
      ensures State() == M.Fresh(shared)
      ensures M.CounterMatches(State()) <==> M.SumSeconds(shared) == 0
      ensures M.Bounded(State()) <==> |shared| <= M.FULL_ABOVE + 1
    {
      items := shared;
      queueLength := 0;
      loopQueue := false;
      loopCurrent := false;
      shuffle := false;
    }

    /** `toggle_loop`. */
    method ToggleLoop(status: M.Option<bool>) returns (r: bool)
      modifies this
      ensures (State(), r) == M.ToggleLoop(old(State()), status)
      ensures r == loopQueue && (r <==> status == M.Some(true) || !old(loopQueue))
      ensures items == old(items) && queueLength == old(queueLength)
      ensures loopCurrent == old(loopCurrent) && shuffle == old(shuffle)
    {
      if status == M.Some(true) {
        loopQueue := true;
      } else {
        loopQueue := !loopQueue;
      }
      r := loopQueue;
    }

    /** `toggle_repeat`. */
    method ToggleRepeat(status: M.Option<bool>) returns (r: bool)
      modifies this
      ensures (State(), r) == M.ToggleRepeat(old(State()), status)
      ensures r == loopCurrent && (r <==> status == M.Some(true) || !old(loopCurrent))
      ensures items == old(items) && queueLength == old(queueLength)
      ensures loopQueue == old(loopQueue) && shuffle == old(shuffle)
    {
      if status == M.Some(true) {
        loopCurrent := true;
      } else {
        loopCurrent := !loopCurrent;
      }
      r := loopCurrent;
    }

    /** `toggle_shuffle`, as written: it updates and returns `_loop_current`,
        and `_shuffle` keeps its value. */
    method ToggleShuffle(status: M.Option<bool>) returns (r: bool)
      modifies this
      ensures (State(), r) == M.ToggleShuffle(old(State()), status)
      ensures r == loopCurrent && (r <==> status == M.Some(true) || !old(loopCurrent))
      ensures shuffle == old(shuffle)
      ensures items == old(items) && queueLength == old(queueLength) && loopQueue == old(loopQueue)
    {
      if status == M.Some(true) {
        loopCurrent := true;
      } else {
        loopCurrent := !loopCurrent;
      }
      r := loopCurrent;
    }

    /** `_add_to_queue`: -2 for a track over an hour, -1 when the counter
        would reach 7200, 0 when more than 36 tracks are queued, otherwise
        append and return 1. */
    method AddToQueue(track: M.Track) returns (ret: int)
      modifies this
      ensures (State(), ret) == M.AddToQueue(old(State()), track)
      ensures ret in {M.TOO_LONG, M.DURATION_CAP, M.QUEUE_FULL, M.ADDED}
      ensures ret != M.ADDED ==> State() == old(State())
      ensures ret == M.ADDED ==> items == old(items) + [track]
      ensures M.Bounded(old(State())) ==> M.Bounded(State())
      ensures M.CounterMatches(old(State())) ==> M.CounterMatches(State())
    {
      P.AdmitKeepsInvariants(State(), track);
      var trackLength := track.length / 1000;
      if trackLength > M.MAX_TRACK_SECONDS {
        ret := M.TOO_LONG;
      } else if queueLength + trackLength >= M.MAX_QUEUE_SECONDS {
        ret := M.DURATION_CAP;
      } else if |items| > M.FULL_ABOVE {
        ret := M.QUEUE_FULL;
      } else {
        queueLength := queueLength + trackLength;
        items := items + [track];
        ret := M.ADDED;
      }
    }

    /** `add`: a track is admitted alone; a playlist's tracks are offered in
        order, counting the admitted ones and stopping at the first "queue
        full"; a list is replaced by its first element. */
    method Add(data: M.AddInput) returns (out: M.AddOutcome)
      modifies this
      ensures (State(), out) == M.Add(old(State()), data)
      ensures M.Bounded(old(State())) ==> M.Bounded(State())
      ensures M.CounterMatches(old(State())) ==> M.CounterMatches(State())
      decreases data
    {
      P.AddKeepsInvariants(State(), data);
      match data
      case Single(track) =>
        var ret := AddToQueue(track);
        if ret == M.ADDED {
          out := M.TrackCard(track);
        } else {
          out := M.NoCard;
        }
      case Playlist(name, tracks) =>
        ghost var s0 := State();
        var added := 0;
        var i := 0;
        while i < |tracks|
          invariant 0 <= i <= |tracks|
          invariant var (rest, n) := M.AddTracks(State(), tracks[i..]);
            M.AddTracks(s0, tracks) == (rest, added + n)
        {
          ghost var before := State();
          assert tracks[i..][0] == tracks[i] && tracks[i..][1..] == tracks[i + 1..];
          var ret := AddToQueue(tracks[i]);
          if ret == M.ADDED {
            added := added + 1;
          } else if ret == M.QUEUE_FULL {
            assert M.AddTracks(before, tracks[i..]) == (State(), 0);
            break;
          }
          i := i + 1;
        }
        assert M.AddTracks(s0, tracks) == (State(), added) by {
          if i == |tracks| {
            assert tracks[i..] == [];
          }
        }
        if |tracks| == 0 {
          out := M.AddIndexError;   // playlist_embed reads tracks[0]
        } else {
          out := M.PlaylistCard(name, added);
        }
      case Many(elems) =>
        if |elems| == 0 {
          out := M.AddIndexError;   // data[0] on an empty list
        } else {
          out := Add(elems[0]);
        }
      case Other =>
        out := M.NoCard;
    }

    /** `next`, with `roll` the value `randint(0, len(_queue))` returns (read
        only when `_shuffle` is set). The re-append under `_loop_current` is
        kept as written; the contract, which is the model's `Next` without
        it, shows that branch is never taken. */
    method Next(roll: nat) returns (pick: M.Pick)
      requires roll <= |items|
      modifies this
      ensures (State(), pick) == M.Next(old(State()), roll)
      ensures M.Bounded(old(State())) ==> M.Bounded(State())
      ensures loopQueue == old(loopQueue) && loopCurrent == old(loopCurrent) && shuffle == old(shuffle)
    {
      if |items| == 0 {
        return M.NoTrack;
      }
      if loopCurrent {
        return M.Play(items[0]);
      }
      var index;
      if shuffle {
        index := roll;
      } else {
        index := 0;
      }
      if index >= |items| {
        return M.PopIndexError;   // list.pop raises IndexError
      }
      var track := items[index];
      var rest := items[..index] + items[index + 1..];
      var counter := queueLength;
      if loopCurrent {
        // never taken: a set `_loop_current` has already returned above
        rest := rest + [track];
      } else {
        counter := counter - track.length;
      }
      items, queueLength := rest, counter;
      pick := M.Play(track);
    }
  }
}
