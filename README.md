# dsmusic playback queue in Dafny

This project models the playback queue of the dsmusic chat bot
(`dsmusic/music/queue.py`). The queue holds the tracks waiting to be played
in a voice channel. It has these parts:

- a running counter of their duration, used for admission control;
- three mode flags: loop the queue, repeat (which makes `next` return the head of
  the list without removing it), and shuffle;
- the duration formatter `parse_seconds`.

The model is split into four modules:

- `TimeFormat` (`time_format.dfy`): `parse_seconds` as a pure function `ParseSeconds`.
  Two lemmas give its exact `MM:SS` / `H:MM:SS` layout and decode its fields
  back to the number of seconds.
- `QueueModel` (`queue_model.dfy`): the queue's five fields as one record
  `QueueState`. Each operation of `Queue` is a function from the old record to the
  new record and the operation's result. The module also has `Run`, any sequence of
  public calls, and `NextTimes`, repeated calls of `next`.
- `QueueProperties` (`queue_properties.dfy`): what those functions guarantee,
  as lemmas.
- `MusicQueue` (`queue.dfy`): the `Queue` class. Its fields are updated in place by
  methods with the same branches as the source. Each method is proved to produce the
  state and result the matching `QueueModel` function gives. The add and selection
  methods also keep the admission bounds. The playlist method does this
  with a loop that carries the `added` counter and a `break`.

The model keeps the source's behaviour as written, including these defects. Each has
a lemma that states it:

- The counter rises by `length // 1000` (seconds) but falls by `length`
  (milliseconds). Adds keep it equal to the seconds in the list when it already
  was (`AddKeepsInvariants`). That holds for the first queue, whose shared list
  starts empty, but not necessarily for a later instance (see below). One FIFO
  `next` keeps that equality exactly when the removed track has length 0
  (`NextBreaksCounter`). A five-second track added and then taken leaves the
  counter at -4995 (`CounterGoesNegative`).
- `toggle_repeat` is documented as repeating the current song, but with the flag
  set `next` returns the head of the list, and the track that is playing was
  already popped when `next` handed it out. Turning repeat on during a track
  therefore replays the track after it, and with a single track queued `next`
  returns `None` (`RepeatIsNotCurrent`).
- `toggle_shuffle` is `toggle_repeat` under another name (`ToggleShuffleIsRepeat`).
  No public call ever sets `_shuffle` (`RunKeepsShuffle`). So from any new queue the
  shuffle branch of `next` is never taken (`ShuffleUnreachable`).
- When shuffle is set, `randint(0, len(_queue))` can return `len(_queue)`. That index
  makes `pop` raise `IndexError` (`ShuffleRolls`).
- A forced `False` is treated like a missing argument and negates the flag
  (`ForcedFalseNegates`).
- `_loop_queue` is never read: `next` ignores it (`NextIgnoresLoopQueue`).
- The re-append branch of `next` (queue.py:177-178) is guarded by `_loop_current`.
  That flag has already returned at line 167. `MusicQueue.Queue.Next` keeps the
  branch, and its contract equates it with the model's `Next`, which has no
  re-append, so the branch is proved never to take effect.
- `_queue` is one class-level list shared by every `Queue` instance, while the
  counter and flags start afresh per instance. A queue created after tracks were
  added (each player, and every `clean_queue`) starts with those tracks and a
  counter of 0. Its counter then matches its list only if those tracks total
  0 seconds (`MusicQueue.Queue.constructor`).
- The `break` in the playlist loop changes nothing observable. Once the list is full,
  every later track is rejected anyway (`BreakOnlySavesWork`).

The limits are those in the code: 3600 s per track, a total below 7200 s, and a
rejection when more than 36 tracks are queued, so at most 37 entries.

## Model

| member | source | states |
|---|---|---|
| `TimeFormat.ParseSeconds` | dsmusic/music/queue.py:54-62 | The text is exactly 5 characters iff the input is below one hour, and it always ends in `:` followed by two digits. |
| `TimeFormat.ParseSecondsShort` | dsmusic/music/queue.py:54-62 | Below 3600 s the text is `MM:SS`: both fields are two zero-padded digits below 60, and `MM*60 + SS` equals the input. |
| `TimeFormat.ParseSecondsLong` | dsmusic/music/queue.py:54-62 | From 3600 s on the text is `str(h) + ":" + MM:SS`: `h >= 1` with no leading zero, both fields are below 60, and `h*3600 + MM*60 + SS` equals the input. |
| `TimeFormat.NatToDecimal` | dsmusic/music/queue.py:61 | `str(h)` is a non-empty digit string with no leading zero, and it is one character long iff `h < 10`. |
| `TimeFormat.TwoDigits` | dsmusic/music/queue.py:58 | `%02d` gives two digits whose decimal value is the number. |
| `TimeFormat.DecimalRoundTrip` | dsmusic/music/queue.py:61 | Reading back the decimal text of `h` gives `h`. |
| `QueueModel.ToggleLoop` | dsmusic/music/queue.py:73-84 | Only `_loop_queue` changes; the result is the new flag, `True` iff `status` is `True` or the flag was off (see `ToggleContract`, `ForcedFalseNegates`). |
| `QueueModel.ToggleRepeat` | dsmusic/music/queue.py:86-97 | Only `_loop_current` changes; the result is the new flag, `True` iff `status` is `True` or the flag was off (see `ToggleContract`). |
| `QueueModel.ToggleShuffle` | dsmusic/music/queue.py:99-110 | Only `_loop_current` changes and `_shuffle` keeps its value; the result is the new `_loop_current` (see `ToggleShuffleIsRepeat`). |
| `QueueModel.AddToQueue` | dsmusic/music/queue.py:112-129 | The result is one of -2/-1/0/1; any result but 1 leaves the state unchanged; 1 appends the track at the tail, only for a track within 3600 s, with a counter that grows and stays below 7200 (see `AdmitPolicy`, `AdmitKeepsInvariants`). |
| `QueueModel.Add` | dsmusic/music/queue.py:131-157 | `add` only appends: the old list is a prefix of the new one, the flags are unchanged, and `None` or `IndexError` means nothing changed (see `AddShapes`, `AddTracksInOrder`, `AddKeepsInvariants`). |
| `QueueModel.Next` | dsmusic/music/queue.py:159-182 | When a track is returned without repeat, the list loses exactly one entry. With repeat, or on `None` or `IndexError`, nothing changes. The counter never rises and the flags are unchanged (see `NextCases`, `NextRemovesOne`, `ShuffleRolls`, `FifoDrain`, `RepeatIsStable`, `NextBreaksCounter`). |
| `QueueModel.AddTracks` | dsmusic/music/queue.py:144-150 | The playlist loop only appends: the old list is a prefix of the new one, and the list grows by exactly the reported count. That count is at most the playlist length. The flags are unchanged. |
| `QueueProperties.ToggleContract` | dsmusic/music/queue.py:73-97 | Each toggle writes only its own flag and returns the new value: `True` if `status` is `True`, else the negation. Two calls without `status` restore the state. |
| `QueueProperties.ForcedFalseNegates` | dsmusic/music/queue.py:79-82 | `status=False` acts exactly like no argument: the flag is negated, so a set flag cannot be forced off. |
| `QueueProperties.ToggleShuffleIsRepeat` | dsmusic/music/queue.py:99-110 | `toggle_shuffle` gives the same state and result as `toggle_repeat`, and `_shuffle` is untouched. |
| `QueueProperties.AdmitPolicy` | dsmusic/music/queue.py:112-129 | In any state: -2 if the track exceeds 3600 s; else -1 if the total would reach 7200, regardless of size; else 0 if more than 36 are queued. Each rejection leaves the state unchanged. The result is 1 iff all three checks pass, and then the track is appended at the tail and the counter grows by its whole seconds. |
| `QueueProperties.AdmitKeepsInvariants` | dsmusic/music/queue.py:118-129 | Admission never takes the list past 37 entries. It keeps the counter below 7200 and keeps the counter equal to the seconds in the list. |
| `QueueProperties.AddTracksWhenFull` | dsmusic/music/queue.py:143-151 | With more than 36 tracks queued, a playlist adds nothing, changes nothing and reports 0. |
| `QueueProperties.BreakOnlySavesWork` | dsmusic/music/queue.py:145-150 | The loop with its `break` gives the same state and count as offering every track. |
| `QueueProperties.AddTracksInOrder` | dsmusic/music/queue.py:143-151 | The appended tracks follow the old list and form a subsequence of the playlist in playlist order. Each is within the per-track cap, and their number is the reported count. |
| `QueueProperties.AddTracksKeepsInvariants` | dsmusic/music/queue.py:144-150 | A playlist keeps the counter equal to the seconds in the list and keeps the 37-entry and 7200 s bounds. |
| `QueueProperties.AddShapes` | dsmusic/music/queue.py:138-157 | A single track yields an embed iff admission returned 1. A non-empty playlist always yields an embed whose count is the number of entries appended. An empty playlist or empty list raises `IndexError` with no change. A list is handled as its first element, and any other input gives `None` with no change. |
| `QueueProperties.AddKeepsInvariants` | dsmusic/music/queue.py:131-157 | `add` keeps the counter equal to the seconds in the list, keeps both bounds, and leaves the shuffle and repeat flags alone. |
| `QueueProperties.NextCases` | dsmusic/music/queue.py:159-182 | An empty queue gives `None` with no change. With repeat set, `next` returns the head with no change. Otherwise FIFO removes the head and lowers the counter by its raw length in milliseconds. |
| `QueueProperties.NextRemovesOne` | dsmusic/music/queue.py:170-182 | A returned track was in the list. Without repeat, the new list plus that track is exactly the old list as a multiset. |
| `QueueProperties.ShuffleRolls` | dsmusic/music/queue.py:170-175 | With shuffle set, an in-range roll removes and returns that entry. The roll `len(_queue)`, which `randint` can produce, raises `IndexError` with no change. |
| `QueueProperties.NextIgnoresLoopQueue` | dsmusic/music/queue.py:159-182 | The loop flag changes neither the pick nor any other field of `next`'s result. |
| `QueueProperties.RepeatIsStable` | dsmusic/music/queue.py:164-168 | With repeat set on a non-empty queue, `n` calls of `next` return the same head `n` times and leave the state unchanged. |
| `QueueProperties.RepeatIsNotCurrent` | dsmusic/music/queue.py:86-97 | After a FIFO `next` hands out the head `t`, turning repeat on makes `next` return the track after `t`, or `None` if `t` was the only one, never `t` itself. |
| `QueueProperties.FifoDrain` | dsmusic/music/queue.py:170-182 | With repeat and shuffle off, `len(_queue)` calls return the tracks in insertion order and empty the list. The counter drops by the total milliseconds. |
| `QueueProperties.NextBreaksCounter` | dsmusic/music/queue.py:175-180 | If the counter equals the seconds in the list, a FIFO `next` keeps that equality iff the removed track's length is 0. |
| `QueueProperties.CounterGoesNegative` | dsmusic/music/queue.py:118-180 | A 5000 ms track added to a fresh queue sets the counter to 5. Taking it with `next` leaves an empty list and a counter of -4995. |
| `QueueProperties.RunKeepsBounded` | dsmusic/music/queue.py:65-182 | Any sequence of public calls keeps at most 37 entries and a counter below 7200. |
| `QueueProperties.RunKeepsShuffle` | dsmusic/music/queue.py:65-182 | No sequence of public calls changes `_shuffle`. |
| `QueueProperties.ShuffleUnreachable` | dsmusic/music/queue.py:65-182 | From any new queue, whatever the shared list holds, `_shuffle` stays false, so `next` never depends on the random index. |
| `MusicQueue.Queue.constructor` | dsmusic/music/queue.py:65-71 | A new queue has counter 0 and all flags off, but its list is the shared list as earlier instances left it. The counter equality holds iff those tracks total 0 seconds, and both bounds hold iff there are at most 37 of them. |
| `MusicQueue.Queue.ToggleLoop` | dsmusic/music/queue.py:73-84 | Sets `_loop_queue` to `True` or to its negation, returns it, and leaves every other field unchanged. |
| `MusicQueue.Queue.ToggleRepeat` | dsmusic/music/queue.py:86-97 | Sets `_loop_current` to `True` or to its negation, returns it, and leaves every other field unchanged. |
| `MusicQueue.Queue.ToggleShuffle` | dsmusic/music/queue.py:99-110 | Updates and returns `_loop_current`, and `_shuffle` keeps its value. |
| `MusicQueue.Queue.AddToQueue` | dsmusic/music/queue.py:112-129 | Returns one of -2/-1/0/1 as `AddToQueue` of the model says. A rejection leaves every field unchanged, and acceptance appends the track. Both bounds and the counter equality are kept. |
| `MusicQueue.Queue.Add` | dsmusic/music/queue.py:131-157 | Gives the state and outcome of the model's `Add`. For a playlist the loop's invariant ties the counter and state to `AddTracks`. Both bounds and the counter equality are kept. |
| `MusicQueue.Queue.Next` | dsmusic/music/queue.py:159-182 | Gives the state and pick of the model's `Next` for any `randint` result, which has no re-append, so the kept re-append branch is proved never to take effect. It keeps both bounds and all flags. |

## Left out

- `track_embed` and `playlist_embed` (queue.py:12-51) build chat embeds with colours, thumbnails and a random colour. The model keeps only what identifies the embed: the track, or the playlist name with the added count. It also keeps the `IndexError` that `playlist_embed` raises on an empty playlist.
- `randint` is not modelled as a random process. `MusicQueue.Queue.Next` takes its value as `roll` and requires `roll <= len(_queue)`, the range `randint(0, len(_queue))` can return.
- `MusicQueue.Queue`: `_queue` is a class attribute in the source, so every `Queue` instance shares one list. The constructor takes that list's contents at creation, so the model does capture two consequences: `clean_queue` does not empty the list, and a later instance starts with its counter at 0, out of step with its list. It does not model two live instances changing the same list at the same time.
- `TimeFormat.ParseSeconds` takes a `nat`. Negative seconds are not modelled: flooring `divmod` keeps minutes and seconds in 0..59, and only the negative hour count printed by the f-string carries a sign (`parse_seconds(-5)` is `-1:59:55`). Its only caller passes `length // 1000` of a non-negative track length.
- Tracks carry only an abstract identity and `length` in milliseconds. Title, URI, author, artwork, source and the stream flag matter only to the embeds.
- The `list` input of `add` is modelled as a sequence of inputs. Python's runtime type checks (`isinstance`) become the cases of `AddInput`, and exceptions other than `IndexError` are not modelled.
- The command handlers in dsmusic/music/cog.py, the player in dsmusic/music/player.py, and bot start-up in dsmusic/client.py and dsmusic/__main__.py are not part of this model. Nor are the language-model proxy (dsmusic/assistant/cog.py) and the presence tracker (dsmusic/tracker/cog.py). All of them are asynchronous I/O over chat, audio and HTTP libraries. `on_track_end` only calls `next` and plays the result.
