/**
 * The audio manager of the bundled application (src/js/audio.js): a fixed
 * track list, a random pick, and up to three attempts to play the one track,
 * with an `onend` handler that marks the music as interrupted.
 *
 * `Math.random()` is the parameter `roll`, `Date.now()` the parameter `now`,
 * and what the engine reports for the attempt numbered `k` is `attempts(k)`.
 */
module AppAudio {
  import opened Text
  import ExperimentAudio

  type Event = ExperimentAudio.Event
  type Outcome = ExperimentAudio.Outcome

  const NostalgiaTrack := "/music/nostalgia/黄家驹 - 光辉岁月1.mp3"
  const NeutralTrack := "/music/neutral/田源 - 乌梅子酱 2.mp3"

  /** The module's constant `MUSIC_PATHS`: one track per group. */
  const MusicPaths: ExperimentAudio.Manifest := map["nostalgia" := [NostalgiaTrack], "neutral" := [NeutralTrack]]

  /** `getRandomTrack`: the track at `Math.floor(roll * tracks.length)`, `null` for a missing or empty group. */
  function GetRandomTrack(m: ExperimentAudio.Manifest, group: string, roll: real): (r: Option<string>)
    requires 0.0 <= roll < 1.0
    ensures r.None? <==> group !in m || |m[group]| == 0
    ensures r.Some? ==> r.value in m[group]
  {
    if group !in m || |m[group]| == 0 then None
    else
      FloorIndex(roll, |m[group]|);
      Some(m[group][(roll * (|m[group]| as real)).Floor])
  }

  /** `Math.floor(roll * n)` is a valid index for a roll in `[0, 1)`. */
  lemma FloorIndex(roll: real, n: nat)
    requires 0.0 <= roll < 1.0 && n > 0
    ensures 0 <= (roll * (n as real)).Floor < n
  {
    assert roll * (n as real) < n as real by {
      assert (1.0 - roll) * (n as real) > 0.0;
    }
  }

  /** With the built-in list the pick does not depend on the roll, and an unknown group has no track. */
  lemma RandomTrackFixed(group: string, roll: real)
    requires 0.0 <= roll < 1.0
    ensures group == "nostalgia" ==> GetRandomTrack(MusicPaths, group, roll) == Some(NostalgiaTrack)
    ensures group == "neutral" ==> GetRandomTrack(MusicPaths, group, roll) == Some(NeutralTrack)
    ensures group != "nostalgia" && group != "neutral" ==> GetRandomTrack(MusicPaths, group, roll).None?
  {
  }

  /** Where the attempts come to rest: the attempt that played or hung, or none after three load errors. */
  datatype Settled = Played(attempt: nat) | Hung(attempt: nat) | GaveUp

  /** Attempt `k` onwards, `maxRetry` being the bound on load errors. */
  function Attempts(attempts: nat -> Event, maxRetry: nat, k: nat): Settled
    decreases maxRetry - k
  {
    if k >= maxRetry then GaveUp
    else match attempts(k)
      case LoadError => Attempts(attempts, maxRetry, k + 1)
      case Played => Played(k)
      case Silent => Hung(k)
  }

  /** Load errors among attempts `0 .. k - 1`. */
  function LoadErrors(attempts: nat -> Event, k: nat): nat {
    if k == 0 then 0 else LoadErrors(attempts, k - 1) + (if attempts(k - 1) == ExperimentAudio.LoadError then 1 else 0)
  }

  /** How `playGroupMusic` settles. */
  function PlayOutcome(group: string, roll: real, now: int, attempts: nat -> Event): Outcome
    requires 0.0 <= roll < 1.0
  {
    var track := GetRandomTrack(MusicPaths, group, roll);
    if track.None? || track.value == "" then ExperimentAudio.Rejected("no_track")
    else match Attempts(attempts, 3, 0)
      case GaveUp => ExperimentAudio.Rejected("music_error")
      case Hung(_) => ExperimentAudio.Pending
      case Played(_) => ExperimentAudio.Resolved(track.value, now)
  }

  /** The promise rejects with `'music_error'` exactly when the first `maxRetry - k` attempts from `k` all fail to load. */
  lemma {:induction false} GaveUpIff(attempts: nat -> Event, maxRetry: nat, k: nat)
    ensures Attempts(attempts, maxRetry, k) == GaveUp <==> forall j :: k <= j < maxRetry ==> attempts(j) == ExperimentAudio.LoadError
    decreases maxRetry - k
  {
    if k < maxRetry {
      GaveUpIff(attempts, maxRetry, k + 1);
    }
  }

  /** When the attempts come to rest earlier, every attempt before the last failed to load and the last lies within the bound. */
  lemma {:induction false} AttemptsSettle(attempts: nat -> Event, maxRetry: nat, k: nat)
    requires k <= maxRetry
    ensures var s := Attempts(attempts, maxRetry, k);
      !s.GaveUp? ==> k <= s.attempt < maxRetry && attempts(s.attempt) != ExperimentAudio.LoadError &&
                     forall j :: k <= j < s.attempt ==> attempts(j) == ExperimentAudio.LoadError
    decreases maxRetry - k
  {
    if k < maxRetry && attempts(k) == ExperimentAudio.LoadError {
      AttemptsSettle(attempts, maxRetry, k + 1);
    }
  }

  /** `'music_error'` exactly when attempts 0, 1 and 2 all fail; a resolution always reports the picked track. */
  lemma AppOutcomeCases(group: string, roll: real, now: int, attempts: nat -> Event)
    requires 0.0 <= roll < 1.0
    ensures var track := GetRandomTrack(MusicPaths, group, roll);
      track.Some? ==>
        (PlayOutcome(group, roll, now, attempts) == ExperimentAudio.Rejected("music_error") <==>
         attempts(0) == ExperimentAudio.LoadError && attempts(1) == ExperimentAudio.LoadError &&
         attempts(2) == ExperimentAudio.LoadError)
    ensures PlayOutcome(group, roll, now, attempts).Resolved? ==>
      PlayOutcome(group, roll, now, attempts) == ExperimentAudio.Resolved(GetRandomTrack(MusicPaths, group, roll).value, now)
  {
    RandomTrackFixed(group, roll);
    GaveUpIff(attempts, 3, 0);
  }

  class AudioManager {
    var players: seq<string>            // every Howl constructed (previous ones are neither stopped nor unloaded)
    var currentTrack: Option<string>
    var retryCount: nat
    const maxRetry: nat
    var musicStartTime: Option<int>
    var interrupted: bool
    var interruptedAt: Option<int>
    var publishedInterrupted: bool      // `window.musicInterrupted`
    var publishedInterruptedAt: Option<int>

    ghost predicate Valid()
      reads this
    {
      maxRetry == 3 && retryCount <= maxRetry && (interrupted ==> |players| > 0)
    }

    constructor ()
      ensures Valid()
      ensures players == [] && currentTrack.None? && retryCount == 0 && musicStartTime.None?
      ensures !interrupted && interruptedAt.None? && !publishedInterrupted && publishedInterruptedAt.None?
    {
      players, currentTrack, retryCount, maxRetry := [], None, 0, 3;
      musicStartTime, interrupted, interruptedAt := None, false, None;
      publishedInterrupted, publishedInterruptedAt := false, None;
    }

    /**
     * `playGroupMusic(group)`: pick the track, then `playMusic` until it
     * plays or hangs, retrying after each load error while
     * `retryCount < maxRetry`.
     */
    method PlayGroupMusic(group: string, roll: real, now: int, attempts: nat -> Event) returns (r: Outcome)
      requires Valid() && 0.0 <= roll < 1.0
      modifies this`players, this`currentTrack, this`musicStartTime, this`retryCount, this`interrupted
      ensures Valid()
      ensures r == PlayOutcome(group, roll, now, attempts)
      ensures var track := GetRandomTrack(MusicPaths, group, roll);
        if track.None? || track.value == "" then
          && players == old(players) && currentTrack == old(currentTrack) && retryCount == old(retryCount)
          && musicStartTime == old(musicStartTime) && interrupted == old(interrupted)
        else
          var s := Attempts(attempts, 3, 0);
          var tried := if s.GaveUp? then 3 else s.attempt + 1;
          && currentTrack == track && musicStartTime == Some(now)
          && players == old(players) + seq(tried, _ => track.value)
          && retryCount == LoadErrors(attempts, tried)
          && interrupted == (if r.Resolved? then false else old(interrupted))
    {
      var track := GetRandomTrack(MusicPaths, group, roll);
      if track.None? || track.value == "" {
        return ExperimentAudio.Rejected("no_track");
      }
      currentTrack := track;
      musicStartTime := Some(now);
      r := Retry(track.value, now, attempts);
    }

    /** The attempts at one track: a new player each time, `retryCount` counting the load errors. */
    method Retry(track: string, now: int, attempts: nat -> Event) returns (r: Outcome)
      requires Valid()
      modifies this`players, this`retryCount, this`interrupted
      ensures Valid()
      ensures var s := Attempts(attempts, 3, 0);
        var tried := if s.GaveUp? then 3 else s.attempt + 1;
        && r == (match s
                 case GaveUp => ExperimentAudio.Rejected("music_error")
                 case Hung(_) => ExperimentAudio.Pending
                 case Played(_) => ExperimentAudio.Resolved(track, now))
        && players == old(players) + seq(tried, _ => track)
        && retryCount == LoadErrors(attempts, tried)
        && interrupted == (if r.Resolved? then false else old(interrupted))
    {
      retryCount := 0;
      ghost var players0 := players;
      var k := 0;
      while true
        invariant 0 <= k <= 3 && retryCount == k && k == LoadErrors(attempts, k)
        invariant Valid()
        invariant Attempts(attempts, 3, 0) == Attempts(attempts, 3, k)
        invariant k < 3
        invariant players == players0 + seq(k, _ => track)
        invariant interrupted == old(interrupted)
        decreases 3 - k
      {
        players := players + [track];
        assert players == players0 + seq(k + 1, _ => track);
        match attempts(k) {
          case Played =>
            interrupted := false;
            return ExperimentAudio.Resolved(track, now);
          case Silent =>
            return ExperimentAudio.Pending;
          case LoadError =>
            retryCount := retryCount + 1;
            if retryCount >= maxRetry {
              return ExperimentAudio.Rejected("music_error");
            }
            k := k + 1;
        }
      }
    }

    /** `onend` of the current player: the track came to an end. */
    method TrackEnded(now: int)
      requires Valid() && |players| > 0
      modifies this`interrupted, this`interruptedAt
      ensures Valid()
      ensures interrupted && interruptedAt == Some(now)
    {
      interrupted := true;
      interruptedAt := Some(now);
    }

    /** `stop`: publish the interruption, if any, once there is a player. */
    method Stop()
      requires Valid()
      modifies this`publishedInterrupted, this`publishedInterruptedAt
      ensures Valid()
      ensures interrupted ==> publishedInterrupted && publishedInterruptedAt == interruptedAt
      ensures !interrupted ==>
        publishedInterrupted == old(publishedInterrupted) && publishedInterruptedAt == old(publishedInterruptedAt)
    {
      if |players| > 0 {
        if interrupted {
          publishedInterrupted := true;
          publishedInterruptedAt := interruptedAt;
        }
      }
    }
  }
}
