/**
 * The sequencer: listing and playing an artist or an album. Console output
 * and the runs of the external player are the effects an operation has;
 * each operation returns them in order, with the outcome.
 */
module Sequencer {
  import opened Library
  import opened Matching
  import opened Paths
  import opened Selection
  import opened Order

  /** One observable step: a line printed, or the player run on one file. */
  datatype Effect = Say(line: string) | Exec(cmd: string, file: Path)

  /** The effects of an operation, in order, and how it ended. */
  datatype Session = Session(status: Outcome, effects: seq<Effect>)

  /** The external player: its program name, and the files on which it exits with an error. */
  datatype Player = Player(cmd: string, failsOn: set<Path>)

  /** The name of the file the program skips among an artist's albums. */
  const Hidden := ".DS_Store"

  function Then(pre: seq<Effect>, s: Session): Session
  {
    Session(s.status, pre + s.effects)
  }

  /** One line per entry, the entry's name. */
  function SayNames(entries: seq<Entry>): (r: seq<Effect>)
  {
    seq(|entries|, k requires 0 <= k < |entries| => Say(entries[k].name))
  }

  /** The files the player ran on, in order. */
  function Runs(effects: seq<Effect>): seq<Path>
  {
    if effects == [] then []
    else (if effects[0].Exec? then [effects[0].file] else []) + Runs(effects[1..])
  }

  /** The lines printed, in order. */
  function Says(effects: seq<Effect>): seq<string>
  {
    if effects == [] then []
    else (if effects[0].Say? then [effects[0].line] else []) + Says(effects[1..])
  }

  // ---------------------------------------------------------------------
  // Albums

  /** How a track is announced: without its extension, after "Album/" when showName is set. */
  function TrackLabel(album: Path, showName: bool, track: string): (r: string)
    ensures |TrimExt(track)| <= |r| && r[|r| - |TrimExt(track)|..] == TrimExt(track)
    ensures showName ==> |r| == |Base(album)| + 1 + |TrimExt(track)|
    ensures showName ==> r[..|Base(album)|] == Base(album) && r[|Base(album)|] == '/'
    ensures !showName ==> r == TrimExt(track)
  {
    if showName then Base(album) + "/" + TrimExt(track) else TrimExt(track)
  }

  /** The effects of playing one track: the optional announcement, then the player run. */
  function TrackEffects(player: Player, album: Path, showName: bool, tracks: bool, song: Entry): seq<Effect>
  {
    (if tracks then [Say(TrackLabel(album, showName, song.name))] else [])
      + [Exec(player.cmd, Join(album, song.name))]
  }

  /** Playing tracks i, i + 1, ... of an album until the end or until the player fails. */
  function PlayTracks(player: Player, album: Path, showName: bool, tracks: bool, songs: seq<Entry>, i: nat): (r: Session)
    requires i <= |songs|
    ensures r.status.Fail? ==>
              exists k :: i <= k < |songs| && FailsAt(player, album, songs, k) &&
                r.status.error == PlayerFailed(player.cmd, Join(album, songs[k].name))
    decreases |songs| - i
  {
    if i == |songs| then Session(Pass, [])
    else
      var file := Join(album, songs[i].name);
      var steps := TrackEffects(player, album, showName, tracks, songs[i]);
      if file in player.failsOn then Session(Fail(PlayerFailed(player.cmd, file)), steps)
      else Then(steps, PlayTracks(player, album, showName, tracks, songs, i + 1))
  }

  /** Specification of playing an album from the track that `start` selects. */
  function AlbumPlayed(fs: FileSystem, player: Player, album: Path, showName: bool, start: string, tracks: bool): (r: Session)
    ensures album !in fs ==> r == Session(Fail(Unreadable(album)), [])
    ensures r.status == Pass ==>
              album in fs &&
              forall k :: FirstMatch(fs[album], start) <= k < |fs[album]| ==> !FailsAt(player, album, fs[album], k)
  {
    match Contents(fs, album)
    case Err(e) => Session(Fail(e), [])
    case Ok(songs) =>
      PlayTracksPass(player, album, showName, tracks, songs, FirstMatch(songs, start));
      PlayTracks(player, album, showName, tracks, songs, FirstMatch(songs, start))
  }

  /** Playing from track i succeeds exactly when the player fails on none of the tracks from i on. */
  lemma {:induction false} PlayTracksPass(player: Player, album: Path, showName: bool, tracks: bool, songs: seq<Entry>, i: nat)
    requires i <= |songs|
    ensures PlayTracks(player, album, showName, tracks, songs, i).status == Pass
            <==> forall k :: i <= k < |songs| ==> !FailsAt(player, album, songs, k)
    decreases |songs| - i
  {
    if i < |songs| {
      PlayTracksStep(player, album, showName, tracks, songs, i);
      PlayTracksPass(player, album, showName, tracks, songs, i + 1);
    }
  }

  /** The effects of one track: its announcement when tracks are announced, then exactly one run, on its file. */
  lemma TrackEffectsShape(player: Player, album: Path, showName: bool, tracks: bool, song: Entry)
    ensures var steps := TrackEffects(player, album, showName, tracks, song);
            Runs(steps) == [Join(album, song.name)] &&
            Says(steps) == (if tracks then [TrackLabel(album, showName, song.name)] else []) &&
            steps[|steps| - 1] == Exec(player.cmd, Join(album, song.name))
  {
    var announce: seq<Effect> := if tracks then [Say(TrackLabel(album, showName, song.name))] else [];
    RunsAppend(announce, [Exec(player.cmd, Join(album, song.name))]);
  }

  /** Plays an album as the program does: find the resume track, then play on from it. */
  method PlayAlbum(fs: FileSystem, player: Player, album: Path, showName: bool, start: string, tracks: bool)
    returns (s: Session)
    ensures s == AlbumPlayed(fs, player, album, showName, start, tracks)
  {
    if album !in fs {
      return Session(Fail(Unreadable(album)), []);
    }
    var songs := fs[album];
    var first := Find(songs, start);
    s := PlayFrom(player, album, showName, tracks, songs, first);
  }

  /** The program's loop over tracks `first`, `first` + 1, ...: stop at the end or at the first failure. */
  method PlayFrom(player: Player, album: Path, showName: bool, tracks: bool, songs: seq<Entry>, first: nat)
    returns (s: Session)
    requires first <= |songs|
    ensures s == PlayTracks(player, album, showName, tracks, songs, first)
  {
    var effects: seq<Effect> := [];
    var i := first;
    while i < |songs|
      invariant first <= i <= |songs|
      invariant Then(effects, PlayTracks(player, album, showName, tracks, songs, i))
                == PlayTracks(player, album, showName, tracks, songs, first)
    {
      var f := Join(album, songs[i].name);
      var steps := TrackEffects(player, album, showName, tracks, songs[i]);
      PlayTracksStep(player, album, showName, tracks, songs, i);
      if f in player.failsOn {
        return Session(Fail(PlayerFailed(player.cmd, f)), effects + steps);
      }
      ThenThen(effects, steps, PlayTracks(player, album, showName, tracks, songs, i + 1));
      effects := effects + steps;
      i := i + 1;
    }
    return Session(Pass, effects);
  }

  /** One step of playing tracks: track i either fails, ending the session, or is followed by the rest. */
  lemma PlayTracksStep(player: Player, album: Path, showName: bool, tracks: bool, songs: seq<Entry>, i: nat)
    requires i < |songs|
    ensures var file, steps := Join(album, songs[i].name), TrackEffects(player, album, showName, tracks, songs[i]);
            PlayTracks(player, album, showName, tracks, songs, i)
            == if file in player.failsOn then Session(Fail(PlayerFailed(player.cmd, file)), steps)
               else Then(steps, PlayTracks(player, album, showName, tracks, songs, i + 1))
  {
  }

  /** Lists an album's tracks from the one `start` selects to the last; earlier ones are skipped. */
  method ListAlbum(fs: FileSystem, album: Path, start: string) returns (s: Session)
    ensures album !in fs ==> s == Session(Fail(Unreadable(album)), [])
    ensures album in fs ==>
              var songs := fs[album];
              s.status == Pass && s.effects == SayNames(songs[FirstMatch(songs, start)..])
  {
    if album !in fs {
      return Session(Fail(Unreadable(album)), []);
    }
    var songs := fs[album];
    var first := Find(songs, start);
    var effects: seq<Effect> := [];
    var i := first;
    while i < |songs|
      invariant first <= i <= |songs|
      invariant effects == SayNames(songs[first..i])
    {
      effects := effects + [Say(songs[i].name)];
      i := i + 1;
    }
    return Session(Pass, effects);
  }

  // ---------------------------------------------------------------------
  // Artists

  /**
   * The order in which an artist's albums are visited: shuffled, then
   * rotated so that the first album `start` selects comes first.
   */
  function ArtistOrder(albums: seq<Entry>, start: string, draws: seq<nat>): (r: seq<Entry>)
    requires ValidDraws(draws, |albums|)
    ensures |r| == |albums| && multiset(r) == multiset(albums)
  {
    var sh := Shuffled(albums, draws);
    RotatePermutes(sh, FirstMatch(sh, start));
    Rotate(sh, FirstMatch(sh, start))
  }

  /**
   * When some album fits `start`, the visit begins at one that does; the
   * albums after it follow in shuffled order, wrapping around.
   */
  lemma ArtistOrderStartsAtMatch(albums: seq<Entry>, start: string, draws: seq<nat>, j: nat)
    requires ValidDraws(draws, |albums|)
    requires j < |albums| && Match(start, albums[j].name)
    ensures Match(start, ArtistOrder(albums, start, draws)[0].name)
    ensures ArtistOrder(albums, start, draws)[0] ==
              Shuffled(albums, draws)[FirstMatch(Shuffled(albums, draws), start)]
  {
    var sh := Shuffled(albums, draws);
    assert albums[j] in multiset(sh);
    var i :| 0 <= i < |sh| && sh[i] == albums[j];
    assert sh[i] in sh;
  }

  /** Playing the albums in the given order, each from its first track, skipping the hidden file. */
  function PlayAlbums(fs: FileSystem, player: Player, artist: Path, tracks: bool, albums: seq<Entry>): (r: Session)
    ensures (forall k :: 0 <= k < |albums| ==> albums[k].name == Hidden) ==> r == Session(Pass, [])
    decreases |albums|
  {
    assert forall k :: 1 <= k < |albums| ==> albums[1..][k - 1] == albums[k];
    if albums == [] then Session(Pass, [])
    else
      var rest := PlayAlbums(fs, player, artist, tracks, albums[1..]);
      if albums[0].name == Hidden then rest
      else
        var s := AlbumPlayed(fs, player, Join(artist, albums[0].name), true, "", tracks);
        if s.status.Fail? then s else Then(s.effects, rest)
  }

  /**
   * Playing an artist's albums succeeds exactly when every album it plays
   * succeeds; when it fails, the error is that of one of the albums it played.
   */
  lemma {:induction false} PlayAlbumsOutcome(fs: FileSystem, player: Player, artist: Path, tracks: bool, albums: seq<Entry>)
    ensures PlayAlbums(fs, player, artist, tracks, albums).status == Pass
            <==> forall k :: 0 <= k < |albums| && albums[k].name != Hidden ==>
                   AlbumPlayed(fs, player, Join(artist, albums[k].name), true, "", tracks).status == Pass
    ensures PlayAlbums(fs, player, artist, tracks, albums).status.Fail? ==>
              exists k :: 0 <= k < |albums| && albums[k].name != Hidden &&
                AlbumPlayed(fs, player, Join(artist, albums[k].name), true, "", tracks).status
                == PlayAlbums(fs, player, artist, tracks, albums).status
    decreases |albums|
  {
    if albums != [] {
      PlayAlbumsOutcome(fs, player, artist, tracks, albums[1..]);
      var rest := PlayAlbums(fs, player, artist, tracks, albums[1..]);
      assert forall k :: 1 <= k < |albums| ==> albums[1..][k - 1] == albums[k];
      assert rest.status.Fail? ==>
               (exists k :: 1 <= k < |albums| && albums[k].name != Hidden &&
                  AlbumPlayed(fs, player, Join(artist, albums[k].name), true, "", tracks).status == rest.status);
    }
  }

  /**
   * When album k is the first album played that fails, playing stops
   * there: the session is that of the albums before k, which all passed,
   * followed by album k's effects, and it ends with album k's error.
   */
  lemma {:induction false} PlayAlbumsStopsAt(fs: FileSystem, player: Player, artist: Path, tracks: bool, albums: seq<Entry>, k: nat)
    requires k < |albums| && albums[k].name != Hidden
    requires AlbumPlayed(fs, player, Join(artist, albums[k].name), true, "", tracks).status.Fail?
    requires forall j :: 0 <= j < k && albums[j].name != Hidden ==>
               AlbumPlayed(fs, player, Join(artist, albums[j].name), true, "", tracks).status == Pass
    ensures var s := AlbumPlayed(fs, player, Join(artist, albums[k].name), true, "", tracks);
            PlayAlbums(fs, player, artist, tracks, albums)
            == Session(s.status, PlayAlbums(fs, player, artist, tracks, albums[..k]).effects + s.effects)
    ensures PlayAlbums(fs, player, artist, tracks, albums[..k]).status == Pass
    decreases k
  {
    var s := AlbumPlayed(fs, player, Join(artist, albums[k].name), true, "", tracks);
    var prefix := albums[..k];
    if k == 0 {
      assert prefix == [];
      assert PlayAlbums(fs, player, artist, tracks, albums) == s;
    } else {
      var tail := albums[1..];
      assert prefix[1..] == tail[..k - 1];
      assert forall j :: 0 <= j < k - 1 ==> tail[j] == albums[j + 1];
      PlayAlbumsStopsAt(fs, player, artist, tracks, tail, k - 1);
      var before := PlayAlbums(fs, player, artist, tracks, tail[..k - 1]);
      var after := PlayAlbums(fs, player, artist, tracks, tail);
      if albums[0].name == Hidden {
        assert PlayAlbums(fs, player, artist, tracks, prefix) == before;
        assert PlayAlbums(fs, player, artist, tracks, albums) == after;
      } else {
        var s0 := AlbumPlayed(fs, player, Join(artist, albums[0].name), true, "", tracks);
        assert s0.status == Pass;
        assert PlayAlbums(fs, player, artist, tracks, prefix) == Then(s0.effects, before);
        assert PlayAlbums(fs, player, artist, tracks, albums) == Then(s0.effects, after);
        ThenThen(s0.effects, before.effects, s);
      }
    }
  }

  /**
   * An album that passes when played for its artist can be read, and the
   * player ran on every one of its tracks, in listing order.
   */
  lemma AlbumPassRunsAll(fs: FileSystem, player: Player, album: Path, tracks: bool)
    requires AlbumPlayed(fs, player, album, true, "", tracks).status == Pass
    ensures album in fs
    ensures Runs(AlbumPlayed(fs, player, album, true, "", tracks).effects) == Files(album, fs[album], 0, |fs[album]|)
  {
    EmptyStartSelectsFirst(fs[album], "");
    PlayTracksUntil(player, album, true, tracks, fs[album], 0, |fs[album]|);
  }

  /**
   * When album k is the first album played that fails, the player ran on
   * every track of the albums before it, then on album k's tracks up to
   * its failure, and on nothing after.
   */
  lemma PlayAlbumsRunsUntil(fs: FileSystem, player: Player, artist: Path, tracks: bool, albums: seq<Entry>, k: nat)
    requires k < |albums| && albums[k].name != Hidden
    requires AlbumPlayed(fs, player, Join(artist, albums[k].name), true, "", tracks).status.Fail?
    requires forall j :: 0 <= j < k && albums[j].name != Hidden ==>
               AlbumPlayed(fs, player, Join(artist, albums[j].name), true, "", tracks).status == Pass
    ensures var s := AlbumPlayed(fs, player, Join(artist, albums[k].name), true, "", tracks);
            PlayAlbums(fs, player, artist, tracks, albums).status == s.status &&
            Runs(PlayAlbums(fs, player, artist, tracks, albums).effects)
            == AllFiles(fs, artist, albums[..k]) + Runs(s.effects)
  {
    var s := AlbumPlayed(fs, player, Join(artist, albums[k].name), true, "", tracks);
    var prefix := albums[..k];
    PlayAlbumsStopsAt(fs, player, artist, tracks, albums, k);
    assert AllPlayable(fs, player, artist, prefix) by {
      forall j | 0 <= j < |prefix| && prefix[j].name != Hidden
        ensures var dir := Join(artist, prefix[j].name);
                dir in fs && forall t :: 0 <= t < |fs[dir]| ==> !FailsAt(player, dir, fs[dir], t)
      {
        var dir := Join(artist, prefix[j].name);
        assert prefix[j] == albums[j];
        EmptyStartSelectsFirst(fs[dir], "");
      }
    }
    PlayAlbumsRunsAll(fs, player, artist, tracks, prefix);
    RunsAppend(PlayAlbums(fs, player, artist, tracks, prefix).effects, s.effects);
  }

  /** Specification of playing an artist. */
  function ArtistPlayed(fs: FileSystem, player: Player, artist: Path, start: string, tracks: bool, draws: seq<nat>): (r: Session)
    requires artist in fs ==> ValidDraws(draws, |fs[artist]|)
    ensures artist !in fs ==> r == Session(Fail(Unreadable(artist)), [])
    ensures artist in fs && fs[artist] == [] ==> r == Session(Pass, [])
  {
    match Contents(fs, artist)
    case Err(e) => Session(Fail(e), [])
    case Ok(albums) => PlayAlbums(fs, player, artist, tracks, ArtistOrder(albums, start, draws))
  }

  /** Plays the albums in the given order, as the program's loop over them does. */
  method PlayInOrder(fs: FileSystem, player: Player, artist: Path, tracks: bool, albums: seq<Entry>)
    returns (s: Session)
    ensures s == PlayAlbums(fs, player, artist, tracks, albums)
  {
    var effects: seq<Effect> := [];
    var j := 0;
    while j < |albums|
      invariant j <= |albums|
      invariant Then(effects, PlayAlbums(fs, player, artist, tracks, albums[j..]))
                == PlayAlbums(fs, player, artist, tracks, albums)
    {
      PlayAlbumsStep(fs, player, artist, tracks, albums, j);
      if albums[j].name != Hidden {
        var r := PlayAlbum(fs, player, Join(artist, albums[j].name), true, "", tracks);
        if r.status.Fail? {
          return Session(r.status, effects + r.effects);
        }
        ThenThen(effects, r.effects, PlayAlbums(fs, player, artist, tracks, albums[j + 1..]));
        effects := effects + r.effects;
      }
      j := j + 1;
    }
    assert albums[j..] == [];
    return Session(Pass, effects);
  }

  /** One step of playing the albums from position `j` on. */
  lemma PlayAlbumsStep(fs: FileSystem, player: Player, artist: Path, tracks: bool, albums: seq<Entry>, j: nat)
    requires j < |albums|
    ensures albums[j].name == Hidden ==>
      PlayAlbums(fs, player, artist, tracks, albums[j..]) == PlayAlbums(fs, player, artist, tracks, albums[j + 1..])
    ensures albums[j].name != Hidden ==>
      var s := AlbumPlayed(fs, player, Join(artist, albums[j].name), true, "", tracks);
      PlayAlbums(fs, player, artist, tracks, albums[j..])
      == if s.status.Fail? then s else Then(s.effects, PlayAlbums(fs, player, artist, tracks, albums[j + 1..]))
  {
    assert albums[j..][1..] == albums[j + 1..];
  }

  /** Effects announced before a session can be announced in two parts. */
  lemma ThenThen(a: seq<Effect>, b: seq<Effect>, s: Session)
    ensures Then(a, Then(b, s)) == Then(a + b, s)
  {
    assert a + (b + s.effects) == (a + b) + s.effects;
  }

  /** Plays an artist as the program does: shuffle, rotate, then play album after album. */
  method PlayArtist(fs: FileSystem, player: Player, artist: Path, start: string, tracks: bool, draws: seq<nat>)
    returns (s: Session)
    requires artist in fs ==> ValidDraws(draws, |fs[artist]|)
    ensures s == ArtistPlayed(fs, player, artist, start, tracks, draws)
  {
    if artist !in fs {
      return Session(Fail(Unreadable(artist)), []);
    }
    var listing := fs[artist];
    var a := new Entry[|listing|](k requires 0 <= k < |listing| => listing[k]);
    assert a[..] == listing;
    Shuffle(a, draws);
    var shuffled := a[..];
    var first := Find(shuffled, start);
    var albums := Rotate(shuffled, first);
    assert albums == ArtistOrder(listing, start, draws);
    s := PlayInOrder(fs, player, artist, tracks, albums);
  }

  /** Lists an artist's albums in listing order, rotated so that the one `start` selects is first. */
  method ListArtist(fs: FileSystem, artist: Path, start: string) returns (s: Session)
    ensures artist !in fs ==> s == Session(Fail(Unreadable(artist)), [])
    ensures artist in fs ==>
              var albums := fs[artist];
              s.status == Pass && s.effects == SayNames(Rotate(albums, FirstMatch(albums, start)))
  {
    if artist !in fs {
      return Session(Fail(Unreadable(artist)), []);
    }
    var listing := fs[artist];
    var first := Find(listing, start);
    var albums := Rotate(listing, first);
    var effects: seq<Effect> := [];
    for j := 0 to |albums|
      invariant effects == SayNames(albums[..j])
    {
      effects := effects + [Say(albums[j].name)];
    }
    assert albums[..|albums|] == albums;
    return Session(Pass, effects);
  }

  // ---------------------------------------------------------------------
  // What playing an album runs and announces

  lemma {:induction false} RunsAppend(a: seq<Effect>, b: seq<Effect>)
    ensures Runs(a + b) == Runs(a) + Runs(b)
    ensures Says(a + b) == Says(a) + Says(b)
    decreases |a|
  {
    if a == [] {
      assert a + b == b;
    } else {
      var ab := a + b;
      assert ab[0] == a[0];
      assert ab[1..] == a[1..] + b;
      RunsAppend(a[1..], b);
      assert Runs(ab) == (if a[0].Exec? then [a[0].file] else []) + Runs(a[1..] + b);
      assert Says(ab) == (if a[0].Say? then [a[0].line] else []) + Says(a[1..] + b);
    }
  }

  /** The files of tracks i .. j - 1 of an album. */
  function Files(album: Path, songs: seq<Entry>, i: nat, j: nat): (r: seq<Path>)
    requires i <= j <= |songs|
    ensures |r| == j - i
    ensures forall k :: 0 <= k < j - i ==> r[k] == Join(album, songs[i + k].name)
    decreases j - i
  {
    if i == j then [] else [Join(album, songs[i].name)] + Files(album, songs, i + 1, j)
  }

  /** The announcements of tracks i .. j - 1 of an album. */
  function Labels(album: Path, showName: bool, songs: seq<Entry>, i: nat, j: nat): seq<string>
    requires i <= j <= |songs|
    decreases j - i
  {
    if i == j then [] else [TrackLabel(album, showName, songs[i].name)] + Labels(album, showName, songs, i + 1, j)
  }

  /** Whether the player fails on track k of the album. */
  predicate FailsAt(player: Player, album: Path, songs: seq<Entry>, k: nat)
    requires k < |songs|
  {
    Join(album, songs[k].name) in player.failsOn
  }

  /**
   * Playing from track i runs the tracks from i up to and including the
   * first one the player fails on (`stop`), or to the end when none fails.
   */
  lemma {:induction false} PlayTracksUntil(player: Player, album: Path, showName: bool, tracks: bool,
                                           songs: seq<Entry>, i: nat, stop: nat)
    requires i <= stop <= |songs|
    requires forall k :: i <= k < stop ==> !FailsAt(player, album, songs, k)
    requires stop < |songs| ==> FailsAt(player, album, songs, stop)
    ensures var end := if stop < |songs| then stop + 1 else stop;
            var s := PlayTracks(player, album, showName, tracks, songs, i);
            Runs(s.effects) == Files(album, songs, i, end) &&
            Says(s.effects) == (if tracks then Labels(album, showName, songs, i, end) else []) &&
            s.status == (if stop < |songs| then Fail(PlayerFailed(player.cmd, Join(album, songs[stop].name))) else Pass)
    decreases |songs| - i
  {
    var end := if stop < |songs| then stop + 1 else stop;
    if i < |songs| {
      var file := Join(album, songs[i].name);
      var announced := TrackLabel(album, showName, songs[i].name);
      var steps := TrackEffects(player, album, showName, tracks, songs[i]);
      var announce: seq<Effect> := if tracks then [Say(announced)] else [];
      RunsAppend(announce, [Exec(player.cmd, file)]);
      assert Runs(steps) == [file];
      assert Says(steps) == if tracks then [announced] else [];
      if i < stop {
        assert file !in player.failsOn by { assert !FailsAt(player, album, songs, i); }
        var rest := PlayTracks(player, album, showName, tracks, songs, i + 1);
        assert PlayTracks(player, album, showName, tracks, songs, i) == Session(rest.status, steps + rest.effects);
        PlayTracksUntil(player, album, showName, tracks, songs, i + 1, stop);
        RunsAppend(steps, rest.effects);
      } else {
        assert PlayTracks(player, album, showName, tracks, songs, i)
               == Session(Fail(PlayerFailed(player.cmd, file)), steps);
      }
    }
  }

  /**
   * Playing an album whose tracks from the resume point on all play:
   * exactly those tracks run, in listing order, and earlier ones are
   * skipped rather than wrapped around.
   */
  lemma AlbumPlaysSuffix(fs: FileSystem, player: Player, album: Path, showName: bool, start: string, tracks: bool)
    requires album in fs
    requires forall k :: FirstMatch(fs[album], start) <= k < |fs[album]| ==> !FailsAt(player, album, fs[album], k)
    ensures var songs, s := fs[album], AlbumPlayed(fs, player, album, showName, start, tracks);
            var first := FirstMatch(songs, start);
            s.status == Pass &&
            Runs(s.effects) == Files(album, songs, first, |songs|) &&
            Says(s.effects) == (if tracks then Labels(album, showName, songs, first, |songs|) else [])
  {
    var songs := fs[album];
    PlayTracksUntil(player, album, showName, tracks, songs, FirstMatch(songs, start), |songs|);
  }

  /** A failing player stops the album: no track after the failing one runs. */
  lemma AlbumPlayStops(fs: FileSystem, player: Player, album: Path, showName: bool, start: string, tracks: bool, f: nat)
    requires album in fs && f < |fs[album]|
    requires FirstMatch(fs[album], start) <= f && FailsAt(player, album, fs[album], f)
    requires forall k :: FirstMatch(fs[album], start) <= k < f ==> !FailsAt(player, album, fs[album], k)
    ensures var songs, s := fs[album], AlbumPlayed(fs, player, album, showName, start, tracks);
            s.status == Fail(PlayerFailed(player.cmd, Join(album, songs[f].name))) &&
            Runs(s.effects) == Files(album, songs, FirstMatch(songs, start), f + 1)
  {
    PlayTracksUntil(player, album, showName, tracks, fs[album], FirstMatch(fs[album], start), f);
  }

  /** An album played on behalf of its artist plays from its first track. */
  lemma AlbumOfArtistPlaysAll(fs: FileSystem, player: Player, album: Path, tracks: bool)
    requires album in fs
    ensures AlbumPlayed(fs, player, album, true, "", tracks)
            == PlayTracks(player, album, true, tracks, fs[album], 0)
  {
    EmptyStartSelectsFirst(fs[album], "");
  }

  /**
   * An album inside an artist directory, played on the artist's behalf,
   * announces each track as "Album/Track" without the extension.
   */
  lemma LabelNamesAlbum(artist: Path, albumName: string, track: string)
    requires forall k :: 0 <= k < |albumName| ==> albumName[k] != '/'
    ensures TrackLabel(Join(artist, albumName), true, track) == albumName + "/" + TrimExt(track)
    ensures TrackLabel(Join(artist, albumName), false, track) == TrimExt(track)
  {
    BaseOfJoin(artist, albumName);
  }

  /** Without track announcements, playing prints nothing. */
  lemma {:induction false} QuietPlayPrintsNothing(player: Player, album: Path, showName: bool, songs: seq<Entry>, i: nat)
    requires i <= |songs|
    ensures Says(PlayTracks(player, album, showName, false, songs, i).effects) == []
    decreases |songs| - i
  {
    if i < |songs| {
      var steps := TrackEffects(player, album, showName, false, songs[i]);
      assert steps == [Exec(player.cmd, Join(album, songs[i].name))];
      QuietPlayPrintsNothing(player, album, showName, songs, i + 1);
      RunsAppend(steps, PlayTracks(player, album, showName, false, songs, i + 1).effects);
    }
  }

  // ---------------------------------------------------------------------
  // What playing an artist runs

  /** Every track of every album in the order given, the hidden file and unreadable entries aside. */
  function AllFiles(fs: FileSystem, artist: Path, albums: seq<Entry>): seq<Path>
    decreases |albums|
  {
    if albums == [] then []
    else
      var dir := Join(artist, albums[0].name);
      var own := if albums[0].name != Hidden && dir in fs then Files(dir, fs[dir], 0, |fs[dir]|) else [];
      own + AllFiles(fs, artist, albums[1..])
  }

  /** The albums in the order given can all be read, and the player plays every track of them. */
  predicate AllPlayable(fs: FileSystem, player: Player, artist: Path, albums: seq<Entry>)
  {
    forall k :: 0 <= k < |albums| && albums[k].name != Hidden ==>
      var dir := Join(artist, albums[k].name);
      dir in fs && forall t :: 0 <= t < |fs[dir]| ==> !FailsAt(player, dir, fs[dir], t)
  }

  lemma {:induction false} PlayAlbumsRunsAll(fs: FileSystem, player: Player, artist: Path, tracks: bool, albums: seq<Entry>)
    requires AllPlayable(fs, player, artist, albums)
    ensures PlayAlbums(fs, player, artist, tracks, albums).status == Pass
    ensures Runs(PlayAlbums(fs, player, artist, tracks, albums).effects) == AllFiles(fs, artist, albums)
    decreases |albums|
  {
    if albums != [] {
      assert AllPlayable(fs, player, artist, albums[1..]) by {
        forall k | 0 <= k < |albums[1..]| && albums[1..][k].name != Hidden
          ensures var dir := Join(artist, albums[1..][k].name);
                  dir in fs && forall t :: 0 <= t < |fs[dir]| ==> !FailsAt(player, dir, fs[dir], t)
        {
          assert albums[1..][k] == albums[k + 1];
        }
      }
      PlayAlbumsRunsAll(fs, player, artist, tracks, albums[1..]);
      var rest := PlayAlbums(fs, player, artist, tracks, albums[1..]);
      if albums[0].name != Hidden {
        var dir := Join(artist, albums[0].name);
        AlbumOfArtistPlaysAll(fs, player, dir, tracks);
        PlayTracksUntil(player, dir, true, tracks, fs[dir], 0, |fs[dir]|);
        var s := AlbumPlayed(fs, player, dir, true, "", tracks);
        RunsAppend(s.effects, rest.effects);
      }
    }
  }

  /**
   * When every album can be read and every track plays, playing an artist
   * succeeds and runs every track of every album, album after album in the
   * shuffled and rotated order, each album from its first track.
   */
  lemma ArtistPlaysEveryTrack(fs: FileSystem, player: Player, artist: Path, start: string, tracks: bool, draws: seq<nat>)
    requires artist in fs && ValidDraws(draws, |fs[artist]|)
    requires AllPlayable(fs, player, artist, ArtistOrder(fs[artist], start, draws))
    ensures ArtistPlayed(fs, player, artist, start, tracks, draws).status == Pass
    ensures Runs(ArtistPlayed(fs, player, artist, start, tracks, draws).effects)
            == AllFiles(fs, artist, ArtistOrder(fs[artist], start, draws))
  {
    PlayAlbumsRunsAll(fs, player, artist, tracks, ArtistOrder(fs[artist], start, draws));
  }
}
