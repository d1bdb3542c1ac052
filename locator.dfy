/**
 * The locator: find the artist, or the album, that a free-text pattern
 * names, by a first-match scan of the music directory.
 */
module Locator {
  import opened Library
  import opened Matching
  import opened Paths

  /** What the locator finds: all albums of an artist, or the tracks of one album. */
  datatype Music =
    | Artist(path: Path)
    | Album(path: Path, showName: bool)   // showName: announce tracks as "Album/Track"

  /** The music directory inside a home directory. */
  function MusicRoot(home: Path): Path
  {
    Join(home, "Music")
  }

  /** A directory whose name fits the pattern. */
  predicate Hit(e: Entry, pattern: string)
  {
    e.isDir && Match(pattern, e.name)
  }

  /** The index of the first directory in the listing whose name fits the pattern. */
  function FirstHit(entries: seq<Entry>, pattern: string): (r: Option<nat>)
    ensures r.Some? ==> r.value < |entries| && Hit(entries[r.value], pattern)
    ensures r.Some? ==> forall j :: 0 <= j < r.value ==> !Hit(entries[j], pattern)
    ensures r.None? <==> forall j :: 0 <= j < |entries| ==> !Hit(entries[j], pattern)
    decreases |entries|
  {
    if entries == [] then None
    else if Hit(entries[0], pattern) then Some(0)
    else
      match FirstHit(entries[1..], pattern)
      case None => None
      case Some(k) => Some(k + 1)
  }

  /**
   * The first artist directory, in listing order, whose name fits the
   * pattern. Finding nothing is not an error.
   */
  function LocateArtist(home: Option<Path>, fs: FileSystem, pattern: string): (r: Result<Option<Music>>)
    ensures home.None? ==> r == Err(NoHome)
    ensures home.Some? && MusicRoot(home.value) !in fs ==> r == Err(Unreadable(MusicRoot(home.value)))
    ensures home.Some? && MusicRoot(home.value) in fs ==>
              var root := MusicRoot(home.value);
              var artists := fs[root];
              (r == Ok(None) <==> forall j :: 0 <= j < |artists| ==> !Hit(artists[j], pattern)) &&
              (r != Ok(None) ==>
                 exists k :: 0 <= k < |artists| && Hit(artists[k], pattern) &&
                   (forall j :: 0 <= j < k ==> !Hit(artists[j], pattern)) &&
                   r == Ok(Some(Artist(Join(root, artists[k].name)))))
  {
    match home
    case None => Err(NoHome)
    case Some(h) =>
      var root := MusicRoot(h);
      match Contents(fs, root)
      case Err(e) => Err(e)
      case Ok(artists) =>
        match FirstHit(artists, pattern)
        case None => Ok(None)
        case Some(k) => Ok(Some(Artist(Join(root, artists[k].name))))
  }

  /**
   * The nested scan of LocateAlbum: artists in listing order, and within
   * each artist its albums in listing order; entries that are not
   * directories are skipped at both levels. An artist directory that cannot
   * be listed stops the scan with that error.
   */
  function ScanArtists(fs: FileSystem, root: Path, artists: seq<Entry>, pattern: string): (r: Result<Option<Music>>)
    ensures r.Err? ==>
              exists k :: 0 <= k < |artists| && artists[k].isDir &&
                Join(root, artists[k].name) !in fs &&
                r.error == Unreadable(Join(root, artists[k].name))
    ensures r.Ok? && r.value.Some? ==> r.value.value.Album? && !r.value.value.showName
    ensures (forall k :: 0 <= k < |artists| && artists[k].isDir ==>
               var aloc := Join(root, artists[k].name);
               aloc in fs && forall j :: 0 <= j < |fs[aloc]| ==> !Hit(fs[aloc][j], pattern))
            ==> r == Ok(None)
    decreases |artists|
  {
    if artists == [] then Ok(None)
    else if !artists[0].isDir then
      var r := ScanArtists(fs, root, artists[1..], pattern);
      assert r.Err? ==> (exists k :: 1 <= k < |artists| && artists[k].isDir &&
                                   Join(root, artists[k].name) !in fs &&
                                   r.error == Unreadable(Join(root, artists[k].name)));
      r
    else
      var aloc := Join(root, artists[0].name);
      match Contents(fs, aloc)
      case Err(e) => Err(e)
      case Ok(albums) =>
        match FirstHit(albums, pattern)
        case Some(k) => Ok(Some(Album(Join(aloc, albums[k].name), false)))
        case None =>
          var r := ScanArtists(fs, root, artists[1..], pattern);
          assert r.Err? ==> (exists k :: 1 <= k < |artists| && artists[k].isDir &&
                                       Join(root, artists[k].name) !in fs &&
                                       r.error == Unreadable(Join(root, artists[k].name)));
          r
  }

  /** The first album directory, over all artists, whose name fits the pattern. */
  function LocateAlbum(home: Option<Path>, fs: FileSystem, pattern: string): (r: Result<Option<Music>>)
    ensures home.None? ==> r == Err(NoHome)
    ensures home.Some? && MusicRoot(home.value) !in fs ==> r == Err(Unreadable(MusicRoot(home.value)))
    ensures r.Ok? && r.value.Some? ==> r.value.value.Album? && !r.value.value.showName
  {
    match home
    case None => Err(NoHome)
    case Some(h) =>
      var root := MusicRoot(h);
      match Contents(fs, root)
      case Err(e) => Err(e)
      case Ok(artists) => ScanArtists(fs, root, artists, pattern)
  }

  // ---------------------------------------------------------------------
  // A reference definition of the album search: one flat candidate list.

  /** An album directory together with the artist directory that holds it. */
  datatype Candidate = Candidate(dir: Path, album: Entry)

  /** The album directories of one artist directory, in listing order. */
  function DirCandidates(dir: Path, albums: seq<Entry>): (r: seq<Candidate>)
    decreases |albums|
  {
    if albums == [] then []
    else (if albums[0].isDir then [Candidate(dir, albums[0])] else []) + DirCandidates(dir, albums[1..])
  }

  /** Every album directory of every artist directory, artists first, then albums. */
  function AlbumCandidates(fs: FileSystem, root: Path, artists: seq<Entry>): (r: seq<Candidate>)
    decreases |artists|
  {
    if artists == [] then []
    else
      var aloc := Join(root, artists[0].name);
      var own := if artists[0].isDir && aloc in fs then DirCandidates(aloc, fs[aloc]) else [];
      own + AlbumCandidates(fs, root, artists[1..])
  }

  /** The first candidate whose album name fits the pattern. */
  function FirstCandidate(cands: seq<Candidate>, pattern: string): (r: Option<Music>)
    decreases |cands|
  {
    if cands == [] then None
    else if Match(pattern, cands[0].album.name) then
      Some(Album(Join(cands[0].dir, cands[0].album.name), false))
    else FirstCandidate(cands[1..], pattern)
  }

  /** Every artist directory of the listing can be read. */
  predicate AllReadable(fs: FileSystem, root: Path, artists: seq<Entry>)
  {
    forall k :: 0 <= k < |artists| && artists[k].isDir ==> Join(root, artists[k].name) in fs
  }

  lemma {:induction false} FirstCandidateAppend(a: seq<Candidate>, b: seq<Candidate>, pattern: string)
    ensures FirstCandidate(a + b, pattern) ==
              if FirstCandidate(a, pattern).Some? then FirstCandidate(a, pattern) else FirstCandidate(b, pattern)
    decreases |a|
  {
    if a != [] {
      assert (a + b)[1..] == a[1..] + b;
      FirstCandidateAppend(a[1..], b, pattern);
    } else {
      assert a + b == b;
    }
  }

  lemma {:induction false} FirstCandidateOfDir(dir: Path, albums: seq<Entry>, pattern: string)
    ensures FirstCandidate(DirCandidates(dir, albums), pattern) ==
              match FirstHit(albums, pattern)
              case None => None
              case Some(k) => Some(Album(Join(dir, albums[k].name), false))
    decreases |albums|
  {
    if albums != [] {
      var own := if albums[0].isDir then [Candidate(dir, albums[0])] else [];
      FirstCandidateAppend(own, DirCandidates(dir, albums[1..]), pattern);
      FirstCandidateOfDir(dir, albums[1..], pattern);
    }
  }

  /**
   * When every artist directory can be read, the nested scan finds exactly
   * what one first-match scan over the flat list of all albums finds.
   */
  lemma {:induction false} ScanArtistsFlattened(fs: FileSystem, root: Path, artists: seq<Entry>, pattern: string)
    requires AllReadable(fs, root, artists)
    ensures ScanArtists(fs, root, artists, pattern) == Ok(FirstCandidate(AlbumCandidates(fs, root, artists), pattern))
    decreases |artists|
  {
    if artists != [] {
      var aloc := Join(root, artists[0].name);
      var own := if artists[0].isDir && aloc in fs then DirCandidates(aloc, fs[aloc]) else [];
      assert AllReadable(fs, root, artists[1..]) by {
        forall k | 0 <= k < |artists[1..]| && artists[1..][k].isDir
          ensures Join(root, artists[1..][k].name) in fs
        {
          assert artists[1..][k] == artists[k + 1];
        }
      }
      ScanArtistsFlattened(fs, root, artists[1..], pattern);
      FirstCandidateAppend(own, AlbumCandidates(fs, root, artists[1..]), pattern);
      if artists[0].isDir {
        FirstCandidateOfDir(aloc, fs[aloc], pattern);
      }
    }
  }

  /** LocateAlbum is the first match over the flat list of all albums, when nothing fails to read. */
  lemma LocateAlbumFlattened(h: Path, fs: FileSystem, pattern: string)
    requires MusicRoot(h) in fs && AllReadable(fs, MusicRoot(h), fs[MusicRoot(h)])
    ensures LocateAlbum(Some(h), fs, pattern) ==
              Ok(FirstCandidate(AlbumCandidates(fs, MusicRoot(h), fs[MusicRoot(h)]), pattern))
  {
    ScanArtistsFlattened(fs, MusicRoot(h), fs[MusicRoot(h)], pattern);
  }

  // ---------------------------------------------------------------------
  // The album search when some artist directories cannot be read.

  /** The position of the first artist directory that cannot be read, or |artists| when all can. */
  function FirstUnreadable(fs: FileSystem, root: Path, artists: seq<Entry>): (u: nat)
    ensures u <= |artists|
    ensures u < |artists| ==> artists[u].isDir && Join(root, artists[u].name) !in fs
    ensures AllReadable(fs, root, artists[..u])
    decreases |artists|
  {
    if artists == [] then 0
    else if artists[0].isDir && Join(root, artists[0].name) !in fs then 0
    else
      var u := 1 + FirstUnreadable(fs, root, artists[1..]);
      assert forall k :: 1 <= k < u ==> artists[..u][k] == artists[1..][..u - 1][k - 1];
      u
  }

  /**
   * The nested scan finds the first fitting album among the artists before
   * the first unreadable artist directory; when there is none, it stops
   * with that directory's read error, or finds nothing when every artist
   * directory can be read.
   */
  lemma {:induction false} ScanArtistsUpTo(fs: FileSystem, root: Path, artists: seq<Entry>, pattern: string)
    ensures var u := FirstUnreadable(fs, root, artists);
            var found := FirstCandidate(AlbumCandidates(fs, root, artists[..u]), pattern);
            ScanArtists(fs, root, artists, pattern)
            == if found.Some? then Ok(found)
               else if u < |artists| then Err(Unreadable(Join(root, artists[u].name)))
               else Ok(None)
    decreases |artists|
  {
    var u := FirstUnreadable(fs, root, artists);
    if artists == [] {
      assert artists[..u] == [];
    } else {
      var aloc := Join(root, artists[0].name);
      var rest := artists[1..];
      if artists[0].isDir && aloc !in fs {
        assert artists[..u] == [];
      } else {
        var v := FirstUnreadable(fs, root, rest);
        assert u == 1 + v;
        assert artists[..u][1..] == rest[..v];
        assert u < |artists| ==> artists[u] == rest[v];
        ScanArtistsUpTo(fs, root, rest, pattern);
        var own := if artists[0].isDir then DirCandidates(aloc, fs[aloc]) else [];
        assert AlbumCandidates(fs, root, artists[..u]) == own + AlbumCandidates(fs, root, rest[..v]);
        FirstCandidateAppend(own, AlbumCandidates(fs, root, rest[..v]), pattern);
        if artists[0].isDir {
          FirstCandidateOfDir(aloc, fs[aloc], pattern);
        }
      }
    }
  }

  /**
   * LocateAlbum in general: the first fitting album of the artists listed
   * before the first unreadable artist directory; otherwise that
   * directory's read error, or nothing when every artist can be read.
   */
  lemma LocateAlbumExact(h: Path, fs: FileSystem, pattern: string)
    requires MusicRoot(h) in fs
    ensures var root := MusicRoot(h);
            var artists := fs[root];
            var u := FirstUnreadable(fs, root, artists);
            var found := FirstCandidate(AlbumCandidates(fs, root, artists[..u]), pattern);
            LocateAlbum(Some(h), fs, pattern)
            == if found.Some? then Ok(found)
               else if u < |artists| then Err(Unreadable(Join(root, artists[u].name)))
               else Ok(None)
  {
    ScanArtistsUpTo(fs, MusicRoot(h), fs[MusicRoot(h)], pattern);
  }
}
