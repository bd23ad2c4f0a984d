/** The playback queue of dsmusic/music/queue.py as values: the queue's
    fields as one record, and each operation of the `Queue` class as a
    function from the old record (and the operation's arguments) to the new
    record and the operation's result. The class in module MusicQueue is
    proved to follow these functions; the lemmas in module QueueProperties
    are about them. */
module QueueModel {

  datatype Option<T> = None | Some(value: T)

  /** A track as the queue sees it: an identity and its length in
      milliseconds (`Track.length`). */
  datatype Track = Track(id: nat, length: nat)

  /** `track.length // 1000`: the whole seconds the queue accounts for. */
  function Seconds(t: Track): nat {
    t.length / 1000
  }

  /** Admission limits of `_add_to_queue`. */
  const MAX_TRACK_SECONDS: nat := 3600
  const MAX_QUEUE_SECONDS: nat := 7200
  /** The size check rejects when the list holds MORE than this many tracks. */
  const FULL_ABOVE: nat := 36

  /** Return codes of `_add_to_queue`. */
  const TOO_LONG: int := -2
  const DURATION_CAP: int := -1
  const QUEUE_FULL: int := 0
  const ADDED: int := 1

  /** The fields of a `Queue`: `_queue`, `_queue_length`, `_loop_queue`,
      `_loop_current` and `_shuffle`. `queueLength` is a plain integer: the
      source lowers it by milliseconds and raises it by seconds, so it can
      become negative. */
  datatype QueueState = QueueState(
    items: seq<Track>,
    queueLength: int,
    loopQueue: bool,
    loopCurrent: bool,
    shuffle: bool)

  /** The state a new `Queue()` sees. The counter and the flags start from
      their class-level defaults (the first `+=`, `-=` or assignment binds an
      instance attribute), but `_queue` is one class-level list shared by
      every instance, so a new queue starts with whatever `shared` holds. */
  function Fresh(shared: seq<Track>): QueueState {
    QueueState(shared, 0, false, false, false)
  }

  /** The very first queue: the shared list is still empty. */
  const Initial: QueueState := Fresh([])

  /** What `add` is given, by the runtime type it inspects: a `Track`, a
      `Playlist` (its name and tracks), a `list` (whose first element is
      added) or anything else. */
  datatype AddInput =
    | Single(track: Track)
    | Playlist(name: string, tracks: seq<Track>)
    | Many(elems: seq<AddInput>)
    | Other

  /** What `add` returns: the embed it built (its title-bearing data only),
      `None`, or the `IndexError` raised by `data[0]` on an empty list or by
      `playlist_embed` reading `tracks[0]` of an empty playlist. */
  datatype AddOutcome =
    | TrackCard(track: Track)
    | PlaylistCard(name: string, added: nat)
    | NoCard
    | AddIndexError

  /** What `next` returns: `None`, a track, or the `IndexError` raised by
      `list.pop` on an index past the end. */
  datatype Pick = NoTrack | Play(track: Track) | PopIndexError

  /** The flag update shared by the three toggles: a truthy `status` sets the
      flag to `True`; `None` and `False` alike negate it. */
  function Toggled(flag: bool, status: Option<bool>): bool {
    if status == Some(true) then true else !flag
  }

  /** `toggle_loop`. */
  function ToggleLoop(s: QueueState, status: Option<bool>): (r: (QueueState, bool))
    ensures r.0 == s.(loopQueue := r.1)
    ensures r.1 <==> status == Some(true) || !s.loopQueue
  {
    var f := Toggled(s.loopQueue, status);
    (s.(loopQueue := f), f)
  }

  /** `toggle_repeat`. */
  function ToggleRepeat(s: QueueState, status: Option<bool>): (r: (QueueState, bool))
    ensures r.0 == s.(loopCurrent := r.1)
    ensures r.1 <==> status == Some(true) || !s.loopCurrent
  {
    var f := Toggled(s.loopCurrent, status);
    (s.(loopCurrent := f), f)
  }

  /** `toggle_shuffle`, as written: it reads and writes `_loop_current`. */
  function ToggleShuffle(s: QueueState, status: Option<bool>): (r: (QueueState, bool))
    ensures r.0 == s.(loopCurrent := r.1) && r.0.shuffle == s.shuffle
    ensures r.1 <==> status == Some(true) || !s.loopCurrent
  {
    var f := Toggled(s.loopCurrent, status);
    (s.(loopCurrent := f), f)
  }

  /** `_add_to_queue`: three checks in a fixed order, then the append. */
  function AddToQueue(s: QueueState, t: Track): (r: (QueueState, int))
    ensures r.1 in {TOO_LONG, DURATION_CAP, QUEUE_FULL, ADDED}
    ensures r.1 != ADDED ==> r.0 == s
    ensures r.1 == ADDED ==>
      (r.0.items == s.items + [t] && Seconds(t) <= MAX_TRACK_SECONDS &&
       s.queueLength <= r.0.queueLength < MAX_QUEUE_SECONDS)
  {
    var trackLength := Seconds(t);
    if trackLength > MAX_TRACK_SECONDS then (s, TOO_LONG)
    else if s.queueLength + trackLength >= MAX_QUEUE_SECONDS then (s, DURATION_CAP)
    else if |s.items| > FULL_ABOVE then (s, QUEUE_FULL)
    else (s.(queueLength := s.queueLength + trackLength, items := s.items + [t]), ADDED)
  }

  /** The `for` loop of `add` over a playlist's tracks: the new state and the
      `added` counter. A rejection for length or total duration skips the
      track; a full queue ends the loop. */
  function AddTracks(s: QueueState, tracks: seq<Track>): (r: (QueueState, nat))
    ensures |r.0.items| == |s.items| + r.1 && r.1 <= |tracks|
    ensures r.0.items[..|s.items|] == s.items
    ensures r.0.loopQueue == s.loopQueue && r.0.loopCurrent == s.loopCurrent
    ensures r.0.shuffle == s.shuffle
    decreases |tracks|
  {
    if tracks == [] then (s, 0)
    else
      var (s1, ret) := AddToQueue(s, tracks[0]);
      if ret == QUEUE_FULL then (s1, 0)
      else
        var (s2, n) := AddTracks(s1, tracks[1..]);
        (s2, if ret == ADDED then n + 1 else n)
  }

  /** `add`, dispatching on the shape of its input. */
  function Add(s: QueueState, data: AddInput): (r: (QueueState, AddOutcome))
    ensures |r.0.items| >= |s.items| && r.0.items[..|s.items|] == s.items
    ensures r.0.loopQueue == s.loopQueue && r.0.loopCurrent == s.loopCurrent
    ensures r.0.shuffle == s.shuffle
    ensures r.1.AddIndexError? || r.1.NoCard? ==> r.0 == s
    decreases data
  {
    match data
    case Single(t) =>
      var (s1, ret) := AddToQueue(s, t);
      (s1, if ret == ADDED then TrackCard(t) else NoCard)
    case Playlist(name, tracks) =>
      var (s1, added) := AddTracks(s, tracks);
      (s1, if tracks == [] then AddIndexError else PlaylistCard(name, added))
    case Many(elems) =>
      if elems == [] then (s, AddIndexError) else Add(s, elems[0])
    case Other => (s, NoCard)
  }

  /** `next`, with the value `randint(0, len(_queue))` would return given as
      `roll` (it is used only when `_shuffle` is set). */
  function Next(s: QueueState, roll: nat): (r: (QueueState, Pick))
    ensures r.0.loopQueue == s.loopQueue && r.0.loopCurrent == s.loopCurrent
    ensures r.0.shuffle == s.shuffle && r.0.queueLength <= s.queueLength
    ensures r.1.Play? && !s.loopCurrent ==> |r.0.items| + 1 == |s.items|
    ensures !r.1.Play? || s.loopCurrent ==> r.0 == s
  {
    if |s.items| == 0 then (s, NoTrack)
    else if s.loopCurrent then (s, Play(s.items[0]))
    else
      var index := if s.shuffle then roll else 0;
      if index >= |s.items| then (s, PopIndexError)
      else
        var track := s.items[index];
        (s.(items := s.items[..index] + s.items[index + 1..],
            queueLength := s.queueLength - track.length),
         Play(track))
  }

  /** One call of a public operation of `Queue`. */
  datatype Op =
    | AddOp(data: AddInput)
    | NextOp(roll: nat)
    | ToggleLoopOp(status: Option<bool>)
    | ToggleRepeatOp(status: Option<bool>)
    | ToggleShuffleOp(status: Option<bool>)

  function Step(s: QueueState, op: Op): QueueState {
    match op
    case AddOp(data) => Add(s, data).0
    case NextOp(roll) => Next(s, roll).0
    case ToggleLoopOp(status) => ToggleLoop(s, status).0
    case ToggleRepeatOp(status) => ToggleRepeat(s, status).0
    case ToggleShuffleOp(status) => ToggleShuffle(s, status).0
  }

  /** The state after a sequence of calls, in order. */
  function Run(s: QueueState, ops: seq<Op>): QueueState
    decreases |ops|
  {
    if ops == [] then s else Run(Step(s, ops[0]), ops[1..])
  }

  /** `n` successive calls of `next` (each with roll 0): the final state and
      what each call returned. */
  function NextTimes(s: QueueState, n: nat): (QueueState, seq<Pick>)
    decreases n
  {
    if n == 0 then (s, [])
    else
      var (s1, p) := Next(s, 0);
      var (s2, ps) := NextTimes(s1, n - 1);
      (s2, [p] + ps)
  }

  /** Sum of `length // 1000` over the tracks: what `_add_to_queue` adds. */
  function SumSeconds(items: seq<Track>): nat {
    if items == [] then 0 else Seconds(items[0]) + SumSeconds(items[1..])
  }

  /** Sum of raw `length` (milliseconds): what `next` subtracts. */
  function SumMillis(items: seq<Track>): nat {
    if items == [] then 0 else items[0].length + SumMillis(items[1..])
  }

  /** The counter equals the seconds of the tracks in the list. */
  predicate CounterMatches(s: QueueState) {
    s.queueLength == SumSeconds(s.items)
  }

  /** The bounds admission control maintains: at most 37 tracks, and a
      counter below the total-duration cap. */
  predicate Bounded(s: QueueState) {
    |s.items| <= FULL_ABOVE + 1 && s.queueLength < MAX_QUEUE_SECONDS
  }

  /** `a` is `b` with some elements left out, order kept. */
  predicate IsSubsequence<T(==)>(a: seq<T>, b: seq<T>)
    decreases |b|
  {
    if a == [] then true
    else if b == [] then false
    else (a[0] == b[0] && IsSubsequence(a[1..], b[1..])) || IsSubsequence(a, b[1..])
  }

  function Plays(items: seq<Track>): (r: seq<Pick>)
    ensures |r| == |items|
    ensures forall i :: 0 <= i < |items| ==> r[i] == Play(items[i])
  {
    if items == [] then [] else [Play(items[0])] + Plays(items[1..])
  }
}
