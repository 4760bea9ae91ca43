/**
 * The audio manager of the experiment pages (public/experiment/audio.js):
 * the manifest loader with its three tiers, the first-track pick, the
 * candidate-URL builder, and the ladder that tries every candidate by
 * direct playback and then by a fetch-to-blob fallback.
 *
 * The playback engine and `fetch` are outside the model. What each of them
 * reports for the candidate at index `i` is the oracle `trials(i)`; indexing
 * by position lets two equal candidate URLs behave differently, as two
 * network attempts may. `encodeURI` and `encodeURIComponent` are parameters.
 */
module ExperimentAudio {
  import opened Text

  /** `MUSIC_PATHS`: group name to its track list; a missing key is `undefined`. */
  type Manifest = map<string, seq<string>>

  const DefaultNeutral := "https://psychology-experiment-music.oss-cn-hongkong.aliyuncs.com/green-shopping-experiment/public/music/neutral/june-lang-lang.mp3"
  const DefaultNostalgia := "https://psychology-experiment-music.oss-cn-hongkong.aliyuncs.com/green-shopping-experiment/public/music/nostalgia/glorious-years-Beyond.mp3"

  /** The built-in fallback: one track per group. */
  const DefaultManifest: Manifest := map["neutral" := [DefaultNeutral], "nostalgia" := [DefaultNostalgia]]

  /** The value `MUSIC_PATHS` starts with. */
  const InitialManifest: Manifest := map["nostalgia" := [], "neutral" := []]

  // ---------------------------------------------------------------------------
  // Manifest tiers, first-track pick and the "need to load" test

  /** `data && (data.nostalgia || data.neutral)`: an array, even an empty one, is truthy. */
  predicate Usable(data: Option<Manifest>) {
    data.Some? && ("nostalgia" in data.value || "neutral" in data.value)
  }

  /**
   * `loadMusicList`: the primary answer when there is one, else the
   * secondary; either is taken when usable, otherwise the built-in default.
   * `None` is what `tryFetch` returns on a network error, a timeout, a
   * non-ok status or a body that is not JSON.
   */
  function ChooseManifest(primary: Option<Manifest>, secondary: Option<Manifest>): Manifest {
    var data := if primary.Some? then primary else secondary;
    if Usable(data) then data.value else DefaultManifest
  }

  /** Tier order: a usable primary wins; the secondary counts only when the primary gave nothing; anything else gives the default, and the result is always usable. */
  lemma ManifestTiers(primary: Option<Manifest>, secondary: Option<Manifest>, other: Option<Manifest>)
    ensures Usable(primary) ==> ChooseManifest(primary, secondary) == primary.value
    ensures primary.Some? ==> ChooseManifest(primary, secondary) == ChooseManifest(primary, other)
    ensures primary.None? && Usable(secondary) ==> ChooseManifest(primary, secondary) == secondary.value
    ensures primary.Some? && !Usable(primary) ==> ChooseManifest(primary, secondary) == DefaultManifest
    ensures primary.None? && !Usable(secondary) ==> ChooseManifest(primary, secondary) == DefaultManifest
    ensures Usable(Some(ChooseManifest(primary, secondary)))
  {
  }

  /** `getLoopTrack`: always the first track of the group, `null` for a missing or empty group. */
  function GetLoopTrack(m: Manifest, group: string): (r: Option<string>)
    ensures r.None? <==> group !in m || |m[group]| == 0
    ensures r.Some? ==> r.value == m[group][0]
  {
    if group in m && |m[group]| > 0 then Some(m[group][0]) else None
  }

  /** `needLoad`: the group's entry is not an array or is empty. */
  predicate NeedLoad(m: Manifest, group: string) {
    group !in m || |m[group]| == 0
  }

  /** The manifest is (re)loaded exactly when it has no track for the group. */
  lemma NeedLoadIffNoTrack(m: Manifest, group: string)
    ensures NeedLoad(m, group) <==> GetLoopTrack(m, group).None?
  {
  }

  /** The default holds a track for each of the two groups, so a fallback load always leaves one to play. */
  lemma DefaultHasTracks()
    ensures GetLoopTrack(DefaultManifest, "neutral") == Some(DefaultNeutral)
    ensures GetLoopTrack(DefaultManifest, "nostalgia") == Some(DefaultNostalgia)
    ensures !NeedLoad(DefaultManifest, "neutral") && !NeedLoad(DefaultManifest, "nostalgia")
  {
  }

  /** The manifest after `playGroupMusic`'s optional load. */
  function ManifestForPlay(m: Manifest, group: string, primary: Option<Manifest>, secondary: Option<Manifest>): Manifest {
    if NeedLoad(m, group) then ChooseManifest(primary, secondary) else m
  }

  // ---------------------------------------------------------------------------
  // Candidate URLs

  /** `/^https?:\/\//i.test(track)`. */
  predicate IsAbsoluteUrl(track: string) {
    StartsWithIgnoreCase(track, "http://") || StartsWithIgnoreCase(track, "https://")
  }

  /** `track.replace('/music/', '/assets/audio/')`: the first `/music/` only. */
  function AliasPath(track: string): string {
    ReplaceFirst(track, "/music/", "/assets/audio/")
  }

  /** The seven raw forms, in the source's order. */
  function RawForms(track: string): (raw: seq<string>)
    ensures |raw| == 7
  {
    var noSlash := DropLeadingSlash(track);
    var alt := AliasPath(track);
    var altNoSlash := DropLeadingSlash(alt);
    [DropLeadingSlash(track), track, "/" + noSlash, noSlash, alt, "/" + altNoSlash, altNoSlash]
  }

  /** Every piece after the first goes through `enc`. */
  function EncodeTail(parts: seq<string>, enc: string -> string): (r: seq<string>)
    ensures |r| == |parts|
    ensures |parts| > 0 ==> r[0] == parts[0]
    ensures forall i :: 0 < i < |parts| ==> r[i] == enc(parts[i])
  {
    if |parts| == 0 then [] else [parts[0]] + seq(|parts| - 1, i requires 0 <= i < |parts| - 1 => enc(parts[i + 1]))
  }

  /** `segmentEncode`: `split('/')`, encode every segment but the first, `join('/')`. */
  function SegmentEncode(p: string, encodeComponent: string -> string): string {
    Join(EncodeTail(Split(p, '/'), encodeComponent), '/')
  }

  /**
   * When the encoder never writes a `/` (`encodeURIComponent` writes `%2F`),
   * segment encoding keeps the number of segments and the first segment, and
   * encodes each of the others.
   */
  lemma SegmentEncodeSegments(p: string, encodeComponent: string -> string)
    requires forall t :: '/' !in encodeComponent(t)
    ensures |Split(SegmentEncode(p, encodeComponent), '/')| == |Split(p, '/')|
    ensures Split(SegmentEncode(p, encodeComponent), '/')[0] == Split(p, '/')[0]
    ensures forall i :: 0 < i < |Split(p, '/')| ==>
      Split(SegmentEncode(p, encodeComponent), '/')[i] == encodeComponent(Split(p, '/')[i])
  {
    var parts := Split(p, '/');
    var enc := EncodeTail(parts, encodeComponent);
    SplitPiecesFree(p, '/');
    assert forall k :: 0 <= k < |enc| ==> '/' !in enc[k] by {
      forall k | 0 <= k < |enc| ensures '/' !in enc[k] {
        if k > 0 { assert enc[k] == encodeComponent(parts[k]); }
      }
    }
    SplitJoin(enc, '/');
  }

  /** The candidate list for one track. */
  function Candidates(track: string, encodeUri: string -> string, encodeComponent: string -> string): seq<string> {
    if IsAbsoluteUrl(track) then [track]
    else
      var raw := RawForms(track);
      raw
      + seq(7, i requires 0 <= i < 7 => encodeUri(raw[i]))
      + seq(7, i requires 0 <= i < 7 => SegmentEncode(raw[i], encodeComponent))
  }

  /** There is always at least one candidate. */
  lemma CandidatesNonEmpty(track: string, encodeUri: string -> string, encodeComponent: string -> string)
    ensures |Candidates(track, encodeUri, encodeComponent)| > 0
  {
  }

  /** An absolute URL is its own and only candidate. */
  lemma AbsoluteCandidates(track: string, encodeUri: string -> string, encodeComponent: string -> string)
    requires IsAbsoluteUrl(track)
    ensures Candidates(track, encodeUri, encodeComponent) == [track]
  {
  }

  /**
   * Any other track gives 21 candidates: the seven raw forms, the same seven
   * through `encodeURI`, the same seven segment-encoded. Raw form 1 is the
   * track, raw form 4 the `/assets/audio/` alias, and raw forms 0 and 3
   * coincide (duplicates are kept).
   */
  lemma RelativeCandidates(track: string, encodeUri: string -> string, encodeComponent: string -> string)
    requires !IsAbsoluteUrl(track)
    ensures |Candidates(track, encodeUri, encodeComponent)| == 21
    ensures forall i :: 0 <= i < 7 ==>
      var c := Candidates(track, encodeUri, encodeComponent);
      c[i] == RawForms(track)[i] && c[7 + i] == encodeUri(c[i]) && c[14 + i] == SegmentEncode(c[i], encodeComponent)
    ensures Candidates(track, encodeUri, encodeComponent)[1] == track
    ensures Candidates(track, encodeUri, encodeComponent)[4] == AliasPath(track)
    ensures Candidates(track, encodeUri, encodeComponent)[0] == Candidates(track, encodeUri, encodeComponent)[3]
  {
  }

  /** A track that starts with `/music/` has its alias under `/assets/audio/`, with the rest of the path kept. */
  lemma AliasOfMusicPath(rest: string)
    ensures AliasPath("/music/" + rest) == "/assets/audio/" + rest
  {
    var t := "/music/" + rest;
    assert t[..7] == "/music/";
    assert IndexOf(t, "/music/") == Some(0);
    assert t[7..] == rest;
  }

  /** The alias of the example track. */
  lemma AliasExample()
    ensures AliasPath("/music/neutral/x.mp3") == "/assets/audio/neutral/x.mp3"
  {
    AliasOfMusicPath("neutral/x.mp3");
    assert "/music/" + "neutral/x.mp3" == "/music/neutral/x.mp3";
    assert "/assets/audio/" + "neutral/x.mp3" == "/assets/audio/neutral/x.mp3";
  }

  /** A typical relative track: its candidates hold the track itself, the alias path and the path without its leading slash. */
  lemma NeutralExampleCandidates(encodeUri: string -> string, encodeComponent: string -> string)
    ensures var c := Candidates("/music/neutral/x.mp3", encodeUri, encodeComponent);
      |c| == 21 && c[1] == "/music/neutral/x.mp3" && c[4] == "/assets/audio/neutral/x.mp3" &&
      c[8] == encodeUri("/music/neutral/x.mp3")
  {
    var t := "/music/neutral/x.mp3";
    assert !IsAbsoluteUrl(t) by { assert AsciiLower(t[0]) != 'h'; }
    AliasExample();
    RelativeCandidates(t, encodeUri, encodeComponent);
  }

  // ---------------------------------------------------------------------------
  // The candidate ladder

  /** What a `Howl` reports after `play()`: `onplay`, `onloaderror`, or neither. */
  datatype Event = Played | LoadError | Silent

  /** What `fetch(url)` followed by `r.blob()` gives; `NetworkFailure` also covers a failing `blob()`. */
  datatype Fetched = NetworkFailure | Response(status: int, blobEvent: Event) | NeverSettles

  /** The engine's and the network's answers for one candidate. */
  datatype Trial = Trial(direct: Event, fetch: Fetched)

  /** `r.ok`. */
  predicate OkStatus(status: int) {
    200 <= status <= 299
  }

  /** A candidate fails when its direct load errors and its blob path then fails too. */
  predicate Fails(t: Trial) {
    t.direct == LoadError &&
    match t.fetch
    case NetworkFailure => true
    case Response(status, ev) => !OkStatus(status) || ev == LoadError
    case NeverSettles => false
  }

  /** The blob player of the candidate reported a load error (the only path that counts a retry). */
  predicate BlobLoadFailed(t: Trial) {
    t.direct == LoadError && t.fetch.Response? && OkStatus(t.fetch.status) && t.fetch.blobEvent == LoadError
  }

  datatype Via = Direct | ViaBlob

  /** Where the ladder comes to rest. */
  datatype Settled = Started(index: nat, via: Via) | Exhausted | Hung(index: nat)

  /** The resting place of a candidate that does not fail. */
  function TrialEnd(t: Trial, k: nat): Settled
    requires !Fails(t)
  {
    if t.direct == Played then Started(k, Direct)
    else if t.direct == Silent then Hung(k)
    else match t.fetch
      case Response(status, ev) => if ev == Played then Started(k, ViaBlob) else Hung(k)
      case NeverSettles => Hung(k)
  }

  /** Where a candidate comes to rest does not depend on its position. */
  lemma TrialEndAt(t: Trial, k: nat)
    requires !Fails(t)
    ensures TrialEnd(t, k).Started? == TrialEnd(t, 0).Started?
    ensures TrialEnd(t, k).Started? ==> TrialEnd(t, k) == Started(k, TrialEnd(t, 0).via)
    ensures TrialEnd(t, k).Hung? == TrialEnd(t, 0).Hung? && !TrialEnd(t, k).Exhausted?
  {
  }

  /** `tryNext(idx)` over `n` candidates: skip failing candidates, stop at the first that does not fail. */
  function Ladder(n: nat, trials: nat -> Trial, idx: nat): Settled
    decreases n - idx
  {
    if idx >= n then Exhausted
    else if Fails(trials(idx)) then Ladder(n, trials, idx + 1)
    else TrialEnd(trials(idx), idx)
  }

  /** The number of candidates the ladder has set up a player for. */
  function Tried(s: Settled, n: nat): nat {
    match s
    case Exhausted => n
    case Started(k, _) => k + 1
    case Hung(k) => k + 1
  }

  /** Blob load errors among the first `k` candidates (`this.retryCount++`). */
  function BlobFailures(trials: nat -> Trial, k: nat): nat {
    if k == 0 then 0 else BlobFailures(trials, k - 1) + (if BlobLoadFailed(trials(k - 1)) then 1 else 0)
  }

  /** The ladder rejects with `'music_error'` exactly when every candidate from `idx` on fails. */
  lemma {:induction false} LadderExhaustedIff(n: nat, trials: nat -> Trial, idx: nat)
    ensures Ladder(n, trials, idx) == Exhausted <==> forall j :: idx <= j < n ==> Fails(trials(j))
    decreases n - idx
  {
    if idx < n {
      LadderExhaustedIff(n, trials, idx + 1);
      if !Fails(trials(idx)) {
        assert Ladder(n, trials, idx) != Exhausted;
      }
    }
  }

  /** Otherwise it settles on the first candidate that does not fail, which lies within the list. */
  lemma {:induction false} LadderFirstLive(n: nat, trials: nat -> Trial, idx: nat, k: nat)
    requires idx <= k < n && !Fails(trials(k))
    requires forall j :: idx <= j < k ==> Fails(trials(j))
    ensures Ladder(n, trials, idx) == TrialEnd(trials(k), k)
    decreases k - idx
  {
    if idx < k {
      LadderFirstLive(n, trials, idx + 1, k);
    }
  }

  /** A ladder that started did so at a candidate that does not fail, and with that candidate's own resting place. */
  lemma {:induction false} LadderStartedAt(n: nat, trials: nat -> Trial, idx: nat)
    requires Ladder(n, trials, idx).Started?
    ensures var s := Ladder(n, trials, idx);
      s.index < n && !Fails(trials(s.index)) && TrialEnd(trials(s.index), s.index) == s
    decreases n - idx
  {
    if idx < n && Fails(trials(idx)) {
      LadderStartedAt(n, trials, idx + 1);
    }
  }

  /** Whatever the answers, at most `n` candidates are tried. */
  lemma {:induction false} LadderBounded(n: nat, trials: nat -> Trial, idx: nat)
    requires idx <= n
    ensures idx <= Tried(Ladder(n, trials, idx), n) <= n
    ensures Ladder(n, trials, idx).Started? ==> idx <= Ladder(n, trials, idx).index < n
    ensures Ladder(n, trials, idx).Hung? ==> idx <= Ladder(n, trials, idx).index < n
    decreases n - idx
  {
    if idx < n && Fails(trials(idx)) {
      LadderBounded(n, trials, idx + 1);
    }
  }

  lemma BlobFailuresAtMost(trials: nat -> Trial, k: nat)
    ensures BlobFailures(trials, k) <= k
  {
  }

  // ---------------------------------------------------------------------------
  // The manager

  /** A player's source: the candidate URL, or an object URL made from the candidate's fetched bytes. */
  datatype Source = Stream(url: string) | BlobOf(url: string)

  datatype Status = Loaded | Stopped | Unloaded

  /** One `Howl` the manager constructed. */
  datatype Player = Player(src: Source, status: Status)

  /** One call of `window.onMusicStarted`. */
  datatype StartNotice = StartNotice(group: string, track: string, startTime: int)

  /** How the promise of `playGroupMusic` settles; `Pending` when no callback ever fires. */
  datatype Outcome = Resolved(track: string, startTime: int) | Rejected(reason: string) | Pending

  /** The manifest fetch results one load sees. */
  datatype ManifestFetch = ManifestFetch(primary: Option<Manifest>, secondary: Option<Manifest>)

  /** What `playGroupMusic` settles to, given the manifest before the call. */
  function PlayOutcome(m: Manifest, group: string, now: int, load: ManifestFetch, trials: nat -> Trial,
                       encodeUri: string -> string, encodeComponent: string -> string): Outcome
  {
    var track := GetLoopTrack(ManifestForPlay(m, group, load.primary, load.secondary), group);
    if track.None? || track.value == "" then Rejected("no_track")
    else
      var c := Candidates(track.value, encodeUri, encodeComponent);
      LadderOutcome(c, Ladder(|c|, trials, 0), now)
  }

  /** How the promise settles once the ladder over the candidates `c` has come to rest at `s`. */
  function LadderOutcome(c: seq<string>, s: Settled, now: int): Outcome {
    match s
    case Exhausted => Rejected("music_error")
    case Hung(_) => Pending
    case Started(k, _) => if k < |c| then Resolved(c[k], now) else Pending
  }

  /**
   * `'no_track'` exactly when the (possibly reloaded) manifest has no track
   * for the group; `'music_error'` exactly when every candidate fails; a
   * resolution always reports a candidate URL (never the object URL) and the
   * start time taken before the first attempt.
   */
  lemma PlayOutcomeCases(m: Manifest, group: string, now: int, load: ManifestFetch, trials: nat -> Trial,
                         encodeUri: string -> string, encodeComponent: string -> string)
    ensures var track := GetLoopTrack(ManifestForPlay(m, group, load.primary, load.secondary), group);
      && (PlayOutcome(m, group, now, load, trials, encodeUri, encodeComponent) == Rejected("no_track")
          <==> track.None? || track.value == "")
      && (track.Some? && track.value != "" ==>
          var c := Candidates(track.value, encodeUri, encodeComponent);
          && (PlayOutcome(m, group, now, load, trials, encodeUri, encodeComponent) == Rejected("music_error")
              <==> forall j :: 0 <= j < |c| ==> Fails(trials(j)))
          && (PlayOutcome(m, group, now, load, trials, encodeUri, encodeComponent).Resolved? ==>
              PlayOutcome(m, group, now, load, trials, encodeUri, encodeComponent).track in c &&
              PlayOutcome(m, group, now, load, trials, encodeUri, encodeComponent).startTime == now))
  {
    var track := GetLoopTrack(ManifestForPlay(m, group, load.primary, load.secondary), group);
    if track.Some? && track.value != "" {
      var c := Candidates(track.value, encodeUri, encodeComponent);
      LadderExhaustedIff(|c|, trials, 0);
      LadderBounded(|c|, trials, 0);
    }
  }

  /** A track that is an absolute URL is played from that URL or not at all. */
  lemma AbsoluteTrackPlaysItself(m: Manifest, group: string, now: int, load: ManifestFetch, trials: nat -> Trial,
                                 encodeUri: string -> string, encodeComponent: string -> string)
    requires var track := GetLoopTrack(ManifestForPlay(m, group, load.primary, load.secondary), group);
      track.Some? && track.value != "" && IsAbsoluteUrl(track.value)
    ensures var track := GetLoopTrack(ManifestForPlay(m, group, load.primary, load.secondary), group);
      var r := PlayOutcome(m, group, now, load, trials, encodeUri, encodeComponent);
      r.Resolved? ==> r.track == track.value
  {
  }

  /** A scenario: every direct load fails, the blob path of the first candidate plays, and the original URL is reported. */
  lemma BlobFallbackReportsOriginal(m: Manifest, group: string, now: int, load: ManifestFetch, trials: nat -> Trial,
                                    encodeUri: string -> string, encodeComponent: string -> string)
    requires var track := GetLoopTrack(ManifestForPlay(m, group, load.primary, load.secondary), group);
      track.Some? && track.value != ""
    requires trials(0) == Trial(LoadError, Response(200, Played))
    ensures var track := GetLoopTrack(ManifestForPlay(m, group, load.primary, load.secondary), group);
      var c := Candidates(track.value, encodeUri, encodeComponent);
      |c| > 0 && PlayOutcome(m, group, now, load, trials, encodeUri, encodeComponent) == Resolved(c[0], now)
  {
    var track := GetLoopTrack(ManifestForPlay(m, group, load.primary, load.secondary), group);
    var c := Candidates(track.value, encodeUri, encodeComponent);
    assert |c| > 0;
  }

  /** Every player has been stopped and unloaded. */
  predicate AllUnloaded(players: seq<Player>)
    decreases |players|
  {
    |players| == 0 || (players[|players| - 1].status == Unloaded && AllUnloaded(players[..|players| - 1]))
  }

  /** Every player but the last is stopped and unloaded, and the last is not. */
  predicate OnePlayerLive(players: seq<Player>) {
    |players| == 0 || (players[|players| - 1].status != Unloaded && AllUnloaded(players[..|players| - 1]))
  }

  lemma {:induction false} AllUnloadedMeans(players: seq<Player>)
    ensures AllUnloaded(players) <==> forall i :: 0 <= i < |players| ==> players[i].status == Unloaded
    decreases |players|
  {
    if |players| > 0 {
      var front := players[..|players| - 1];
      AllUnloadedMeans(front);
      assert forall i :: 0 <= i < |front| ==> front[i] == players[i];
    }
  }

  /** `OnePlayerLive` read pointwise: only the last player may still be loaded or merely stopped. */
  lemma OnePlayerLiveMeans(players: seq<Player>)
    ensures OnePlayerLive(players) <==>
      && (forall i :: 0 <= i < |players| - 1 ==> players[i].status == Unloaded)
      && (|players| > 0 ==> players[|players| - 1].status != Unloaded)
  {
    if |players| > 0 {
      var front := players[..|players| - 1];
      AllUnloadedMeans(front);
      assert forall i :: 0 <= i < |front| ==> front[i] == players[i];
    }
  }

  /** The players after `stop(); unload()` of the current one, if any. */
  function Retire(players: seq<Player>): seq<Player> {
    if |players| == 0 then [] else players[..|players| - 1] + [Player(players[|players| - 1].src, Unloaded)]
  }

  /** The players one candidate builds: a stream player, then a blob player once the fetch after a direct load error answers `ok`. */
  function StepSources(url: string, t: Trial): (srcs: seq<Source>)
    ensures 1 <= |srcs| <= 2 && srcs[0] == Stream(url)
    ensures |srcs| == 2 <==> t.direct == LoadError && t.fetch.Response? && OkStatus(t.fetch.status)
  {
    [Stream(url)] + (if t.direct == LoadError && t.fetch.Response? && OkStatus(t.fetch.status) then [BlobOf(url)] else [])
  }

  /** What each player constructed so far was built for, oldest first. */
  function Sources(players: seq<Player>): seq<Source> {
    seq(|players|, i requires 0 <= i < |players| => players[i].src)
  }

  /**
   * With at most one live player, the sources built and the status of the
   * last player fix the whole list of players.
   */
  lemma PlayersDetermined(p: seq<Player>, q: seq<Player>)
    requires OnePlayerLive(p) && OnePlayerLive(q) && Sources(p) == Sources(q)
    requires |p| > 0 && |q| > 0 ==> p[|p| - 1].status == q[|q| - 1].status
    ensures p == q
  {
    OnePlayerLiveMeans(p);
    OnePlayerLiveMeans(q);
    assert |p| == |Sources(p)| == |q|;
    forall i | 0 <= i < |p|
      ensures p[i] == q[i]
    {
      assert Sources(p)[i] == p[i].src && Sources(q)[i] == q[i].src;
    }
  }

  /** Replacing the current player adds the new player's source and keeps every earlier one. */
  lemma SourcesReplace(players: seq<Player>, src: Source)
    ensures Sources(Retire(players) + [Player(src, Loaded)]) == Sources(players) + [src]
  {
  }

  /** The sources of the players the ladder builds for candidates `0 .. k - 1`. */
  function LadderSources(c: seq<string>, trials: nat -> Trial, k: nat): seq<Source>
    requires k <= |c|
  {
    if k == 0 then [] else LadderSources(c, trials, k - 1) + StepSources(c[k - 1], trials(k - 1))
  }

  /** The sources the ladder over `c` builds players for before it settles: one build per candidate it tried. */
  function SettledSources(c: seq<string>, trials: nat -> Trial): seq<Source> {
    LadderBounded(|c|, trials, 0);
    LadderSources(c, trials, Tried(Ladder(|c|, trials, 0), |c|))
  }

  /** The last player a candidate builds is the one that played when it started. */
  lemma StepLastSource(url: string, t: Trial)
    requires !Fails(t) && TrialEnd(t, 0).Started?
    ensures var srcs := StepSources(url, t);
      srcs[|srcs| - 1] == (if TrialEnd(t, 0).via == Direct then Stream(url) else BlobOf(url))
  {
  }

  /**
   * The live player the ladder leaves behind is the one for the candidate it
   * settled on: its stream player when the direct load played, its blob
   * player when the blob path played.
   */
  lemma LadderLastSource(c: seq<string>, trials: nat -> Trial)
    requires Ladder(|c|, trials, 0).Started?
    ensures var s := Ladder(|c|, trials, 0);
      var srcs := SettledSources(c, trials);
      s.index < |c| && |srcs| > 0 &&
      srcs[|srcs| - 1] == (if s.via == Direct then Stream(c[s.index]) else BlobOf(c[s.index]))
  {
    var s := Ladder(|c|, trials, 0);
    LadderBounded(|c|, trials, 0);
    LadderStartedAt(|c|, trials, 0);
    var k := s.index;
    TrialEndAt(trials(k), k);
    StepLastSource(c[k], trials(k));
    assert SettledSources(c, trials) == LadderSources(c, trials, k) + StepSources(c[k], trials(k));
  }

  /** Each of the first `k` candidates builds its stream player, and none builds more than two players. */
  lemma {:induction false} LadderStreams(c: seq<string>, trials: nat -> Trial, k: nat)
    requires k <= |c|
    ensures k <= |LadderSources(c, trials, k)| <= 2 * k
    ensures forall j :: 0 <= j < k ==> Stream(c[j]) in LadderSources(c, trials, k)
  {
    if k > 0 {
      LadderStreams(c, trials, k - 1);
      assert StepSources(c[k - 1], trials(k - 1))[0] == Stream(c[k - 1]);
    }
  }

  class AudioManager {
    var players: seq<Player>                 // every Howl constructed, last = `backgroundMusic`
    var currentTrack: Option<string>
    var retryCount: nat
    const maxRetry: nat
    var musicStartTime: Option<int>
    var interrupted: bool
    var interruptedAt: Option<int>
    var musicPaths: Manifest                 // the module-level `MUSIC_PATHS`
    var notices: seq<StartNotice>            // calls of `window.onMusicStarted`
    var publishedInterrupted: bool           // `window.musicInterrupted`
    var publishedInterruptedAt: Option<int>  // `window.musicInterruptedAt`

    /**
     * At most one player is live, and `interrupted` is never set: this file
     * gives its players no `onend` handler, so nothing here sets it.
     */
    ghost predicate Valid()
      reads this
    {
      OnePlayerLive(players) && !interrupted && maxRetry == 3
    }

    constructor ()
      ensures Valid()
      ensures players == [] && currentTrack.None? && retryCount == 0 && musicStartTime.None?
      ensures interruptedAt.None? && musicPaths == InitialManifest && notices == []
      ensures !publishedInterrupted && publishedInterruptedAt.None?
    {
      players, currentTrack, retryCount, maxRetry := [], None, 0, 3;
      musicStartTime, interrupted, interruptedAt := None, false, None;
      musicPaths, notices := InitialManifest, [];
      publishedInterrupted, publishedInterruptedAt := false, None;
    }

    /** `loadMusicList`. */
    method LoadMusicList(load: ManifestFetch)
      requires Valid()
      modifies this`musicPaths
      ensures Valid()
      ensures musicPaths == ChooseManifest(load.primary, load.secondary)
    {
      var data := if load.primary.Some? then load.primary else load.secondary;
      if data.Some? && ("nostalgia" in data.value || "neutral" in data.value) {
        musicPaths := data.value;
      } else {
        musicPaths := DefaultManifest;
      }
    }

    /** Stop and unload the current player, if any, then construct one for `src`. */
    method ReplacePlayer(src: Source)
      requires Valid()
      modifies this`players
      ensures Valid()
      ensures players == Retire(old(players)) + [Player(src, Loaded)]
      ensures Sources(players) == Sources(old(players)) + [src]
    {
      SourcesReplace(players, src);
      if |players| > 0 {
        var last := players[|players| - 1];
        var front := players[..|players| - 1];
        players := front + [Player(last.src, Unloaded)];
        assert players[..|players| - 1] == front;
      }
      assert AllUnloaded(players);
      players := players + [Player(src, Loaded)];
      assert players[..|players| - 1] == old(Retire(players));
    }

    /** `onplay` of either player: clear `interrupted`, notify, resolve with the candidate URL. */
    method Started(group: string, url: string, now: int) returns (r: Outcome)
      requires Valid()
      modifies this`interrupted, this`notices
      ensures Valid()
      ensures r == Resolved(url, now) && !interrupted
      ensures notices == old(notices) + [StartNotice(group, url, now)]
    {
      interrupted := false;
      notices := notices + [StartNotice(group, url, now)];
      r := Resolved(url, now);
    }

    /**
     * One step of `tryNext`: construct a player for the candidate and play it;
     * on a direct load error fetch the bytes and play them from a blob player.
     * `None` means the ladder moves on to the next candidate.
     */
    method TryCandidate(group: string, url: string, now: int, t: Trial) returns (r: Option<Outcome>)
      requires Valid()
      modifies this`players, this`interrupted, this`notices, this`retryCount
      ensures Valid()
      ensures r.None? <==> Fails(t)
      ensures retryCount == old(retryCount) + (if BlobLoadFailed(t) then 1 else 0)
      ensures Sources(players) == Sources(old(players)) + StepSources(url, t)
      ensures players[|players| - 1].status == Loaded
      ensures r.Some? && TrialEnd(t, 0).Started? ==>
        r.value == Resolved(url, now) && notices == old(notices) + [StartNotice(group, url, now)]
      ensures r.Some? && TrialEnd(t, 0).Hung? ==> r.value == Pending && notices == old(notices)
      ensures r.None? ==> notices == old(notices)
    {
      ReplacePlayer(Stream(url));
      if t.direct == LoadError {
        ghost var s1 := Sources(players);
        r := TryBlob(group, url, now, t.fetch);
        assert Sources(players) == s1 + StepSources(url, t)[1..];
        assert StepSources(url, t) == [Stream(url)] + StepSources(url, t)[1..];
      } else {
        assert StepSources(url, t) == [Stream(url)];
        if t.direct == Played {
          var o := Started(group, url, now);
          r := Some(o);
        } else {
          r := Some(Pending);
        }
      }
    }

    /**
     * The `onloaderror` handler of the stream player: fetch the bytes and,
     * on an `ok` response, play them from a blob player; that player's load
     * error counts a retry.
     */
    method TryBlob(group: string, url: string, now: int, f: Fetched) returns (r: Option<Outcome>)
      requires Valid() && |players| > 0 && players[|players| - 1].status == Loaded
      modifies this`players, this`interrupted, this`notices, this`retryCount
      ensures Valid()
      ensures r.None? <==> Fails(Trial(LoadError, f))
      ensures retryCount == old(retryCount) + (if BlobLoadFailed(Trial(LoadError, f)) then 1 else 0)
      ensures Sources(players) == Sources(old(players)) + (if f.Response? && OkStatus(f.status) then [BlobOf(url)] else [])
      ensures |players| > 0 && players[|players| - 1].status == Loaded
      ensures r.Some? && TrialEnd(Trial(LoadError, f), 0).Started? ==>
        r.value == Resolved(url, now) && notices == old(notices) + [StartNotice(group, url, now)]
      ensures r.Some? && TrialEnd(Trial(LoadError, f), 0).Hung? ==> r.value == Pending && notices == old(notices)
      ensures r.None? ==> notices == old(notices)
    {
      ghost var t := Trial(LoadError, f);
      if !(f.Response? && OkStatus(f.status)) {
        assert Sources(players) + [] == Sources(players);
        assert !BlobLoadFailed(t);
      }
      match f {
        case NeverSettles =>
          assert TrialEnd(t, 0) == Hung(0);
          r := Some(Pending);
        case NetworkFailure =>
          r := None;
        case Response(status, ev) =>
          if !OkStatus(status) {
            return None;
          }
          ReplacePlayer(BlobOf(url));
          if ev == Played {
            var o := Started(group, url, now);
            r := Some(o);
          } else if ev == Silent {
            r := Some(Pending);
          } else {
            retryCount := retryCount + 1;
            r := None;
          }
      }
    }

    /** The `needLoad` test, the optional load, and `getLoopTrack`. */
    method PrepareTrack(group: string, load: ManifestFetch) returns (track: Option<string>)
      requires Valid()
      modifies this`musicPaths
      ensures Valid()
      ensures musicPaths == ManifestForPlay(old(musicPaths), group, load.primary, load.secondary)
      ensures track == GetLoopTrack(musicPaths, group)
    {
      if NeedLoad(musicPaths, group) {
        LoadMusicList(load);
      }
      track := GetLoopTrack(musicPaths, group);
    }

    /**
     * The state `playGroupMusic(group)` leaves when it starts from manifest
     * `m0`: the manifest after the optional reload, and, when the group has
     * a track, that track as `currentTrack`, the start time, the blob
     * failures counted, one build per candidate tried and one start notice
     * when it resolves; with no track nothing else changes.
     */
    twostate predicate PlayedGroup(m0: Manifest, group: string, now: int, load: ManifestFetch, trials: nat -> Trial,
                                   encodeUri: string -> string, encodeComponent: string -> string, r: Outcome)
      reads this
    {
      && r == PlayOutcome(m0, group, now, load, trials, encodeUri, encodeComponent)
      && musicPaths == ManifestForPlay(m0, group, load.primary, load.secondary)
      && interrupted == old(interrupted) == false
      && var track := GetLoopTrack(musicPaths, group);
        if track.None? || track.value == "" then
          players == old(players) && notices == old(notices) &&
          currentTrack == old(currentTrack) && musicStartTime == old(musicStartTime) && retryCount == old(retryCount)
        else
          var c := Candidates(track.value, encodeUri, encodeComponent);
          var s := Ladder(|c|, trials, 0);
          && currentTrack == track && musicStartTime == Some(now)
          && retryCount == BlobFailures(trials, if s.Exhausted? then |c| else s.index)
          && Sources(players) == Sources(old(players)) + SettledSources(c, trials)
          && |players| > |old(players)| && players[|players| - 1].status == Loaded
          && notices == old(notices) + (if r.Resolved? then [StartNotice(group, r.track, now)] else [])
    }

    /**
     * `playGroupMusic(group)`: load the manifest when the group has no
     * track, pick the first track, then run the candidate ladder.
     */
    method PlayGroupMusic(group: string, now: int, load: ManifestFetch, trials: nat -> Trial,
                          encodeUri: string -> string, encodeComponent: string -> string)
      returns (r: Outcome)
      requires Valid()
      modifies this`musicPaths, this`currentTrack, this`musicStartTime, this`retryCount,
               this`players, this`interrupted, this`notices
      ensures Valid()
      ensures PlayedGroup(old(musicPaths), group, now, load, trials, encodeUri, encodeComponent, r)
    {
      ghost var m := ManifestForPlay(musicPaths, group, load.primary, load.secondary);
      var track := PrepareTrack(group, load);
      assert musicPaths == m && track == GetLoopTrack(m, group);
      if track.None? || track.value == "" {
        return Rejected("no_track");
      }
      currentTrack := track;
      musicStartTime := Some(now);
      retryCount := 0;
      var c := Candidates(track.value, encodeUri, encodeComponent);
      CandidatesNonEmpty(track.value, encodeUri, encodeComponent);
      r := RunLadder(group, c, now, trials);
      assert r == LadderOutcome(c, Ladder(|c|, trials, 0), now);
    }

    /** `tryNext(0)` over the candidate list `c`, with `retryCount` reset to 0 beforehand. */
    method RunLadder(group: string, c: seq<string>, now: int, trials: nat -> Trial) returns (r: Outcome)
      requires Valid() && retryCount == 0
      modifies this`retryCount, this`players, this`interrupted, this`notices
      ensures Valid()
      ensures var s := Ladder(|c|, trials, 0);
        && r == LadderOutcome(c, s, now)
        && retryCount == BlobFailures(trials, if s.Exhausted? then |c| else s.index)
        && Sources(players) == Sources(old(players)) + SettledSources(c, trials)
        && (|c| > 0 ==> |players| > |old(players)| && players[|players| - 1].status == Loaded)
        && (r.Resolved? ==> notices == old(notices) + [StartNotice(group, r.track, now)])
        && (!r.Resolved? ==> notices == old(notices))
    {
      ghost var players0 := players;
      var idx := 0;
      while idx < |c|
        invariant 0 <= idx <= |c|
        invariant Valid()
        invariant Ladder(|c|, trials, 0) == Ladder(|c|, trials, idx)
        invariant retryCount == BlobFailures(trials, idx)
        invariant notices == old(notices)
        invariant Sources(players) == Sources(players0) + LadderSources(c, trials, idx)
        invariant idx > 0 ==> |players| > |players0| && players[|players| - 1].status == Loaded
      {
        ghost var before := Sources(players);
        var step := TryCandidate(group, c[idx], now, trials(idx));
        assert Sources(players) == Sources(players0) + LadderSources(c, trials, idx + 1) by {
          assert Sources(players) == before + StepSources(c[idx], trials(idx));
          assert LadderSources(c, trials, idx + 1) == LadderSources(c, trials, idx) + StepSources(c[idx], trials(idx));
        }
        if step.Some? {
          TrialEndAt(trials(idx), idx);
          assert Ladder(|c|, trials, 0) == TrialEnd(trials(idx), idx);
          assert Tried(Ladder(|c|, trials, 0), |c|) == idx + 1;
          return step.value;
        }
        assert Ladder(|c|, trials, idx) == Ladder(|c|, trials, idx + 1);
        idx := idx + 1;
      }
      r := Rejected("music_error");
    }

    /** `playGroupForDuration`: always load, then `playGroupMusic`; the duration is not used. */
    method PlayGroupForDuration(group: string, durationMs: int, now: int, first: ManifestFetch, second: ManifestFetch,
                                trials: nat -> Trial, encodeUri: string -> string, encodeComponent: string -> string)
      returns (r: Outcome)
      requires Valid()
      modifies this`musicPaths, this`currentTrack, this`musicStartTime, this`retryCount,
               this`players, this`interrupted, this`notices
      ensures Valid()
      ensures PlayedGroup(ChooseManifest(first.primary, first.secondary), group, now, second, trials, encodeUri, encodeComponent, r)
    {
      LoadMusicList(first);
      r := PlayGroupMusic(group, now, second, trials, encodeUri, encodeComponent);
    }

    /** `stop`: stop the current player; `interrupted` is never set here, so nothing is published. */
    method Stop()
      requires Valid()
      modifies this`players, this`publishedInterrupted, this`publishedInterruptedAt
      ensures Valid()
      ensures |players| == |old(players)|
      ensures |players| > 0 ==>
        players == old(players)[..|players| - 1] + [Player(old(players)[|players| - 1].src, Stopped)]
      ensures publishedInterrupted == old(publishedInterrupted) && publishedInterruptedAt == old(publishedInterruptedAt)
    {
      if |players| > 0 {
        var last := players[|players| - 1];
        var front := players[..|players| - 1];
        players := front + [Player(last.src, Stopped)];
        assert players[..|players| - 1] == front;
        // `interrupted` is false by `Valid()`, so nothing is published
      }
    }
  }
}
