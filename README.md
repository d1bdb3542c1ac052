# splay locator and sequencer, modelled in Dafny

splay is a small command-line music player. The user names an artist or an
album in free text. splay looks for it under `$HOME/Music`, which holds one
directory per artist and, inside each artist, one directory per album. It
then plays the album's tracks, or all of the artist's albums, by running an
external player on each file. It can also just list what it would play.

This project models the core of that program, `locate.go`:

- `matching.dfy` (module `Matching`): name matching. A name fits a
  pattern when the pattern, lower-cased and cleaned, is a substring of the
  name, lower-cased and cleaned. Cleaning keeps letters, digits and white
  space and drops everything else.
- `selection.dfy` (module `Selection`): the resume point. This is the index
  of the first entry whose name fits the pattern, or 0 when none fits.
- `paths.dfy` (module `Paths`): joining paths, the final path element, and
  removing a file extension.
- `order.dfy` (module `Order`): the order in which an artist's albums are
  visited. The albums are shuffled with one random swap per position. The
  list is then rotated so that the resume album comes first.
- `locator.dfy` (module `Locator`): finding the first artist, or the first
  album over all artists, whose directory name fits the pattern.
- `sequencer.dfy` (module `Sequencer`): playing and listing an album or an
  artist. Each operation returns its effects in order, together with how it
  ended. An effect is a printed line or a run of the player on a file.
- `library.dfy` (module `Library`): the shared vocabulary. This covers
  directory entries, the file system, errors and results.

The file system is a map from a directory path to its listing, in listing
order. A path missing from the map is a directory that cannot be read.
The home directory is an `Option`, with `None` meaning the current user
could not be found. The random source is a sequence of draws. The draw for
position `i` of an `n`-entry shuffle is below `n - i`, which is what the
source's `Intn` promises. The external player is described by its command
and by the set of files on which it exits with an error.

Where the code and its own comments or tests differ, the model follows the
code:

- The locator takes the first directory in listing order whose name fits.
  The doc comments talk of a "best-guess match", but no scoring is done.
- `find` falls back to index 0 when nothing fits. It does not report an
  error.
- Playing or listing an album goes from the resume track to the last
  track. It does not wrap around to the earlier tracks. An artist's albums
  do wrap around, through the rotation.
- `.DS_Store` is skipped only when playing an artist. Listing an artist
  prints it, and album listings are not filtered at all.
- Not finding anything is not an error: both locators then return no
  music and no error.

## Model

| member | source | states |
|---|---|---|
| Matching.LowerChar | locate.go:114-115 | each upper-case ASCII letter becomes its own lower-case letter, lower-case letters and every non-letter are unchanged, and whether cleaning keeps the character is unchanged |
| Matching.Lower | locate.go:114 | lower-casing keeps the length, turns each upper-case ASCII letter into its own lower-case letter, changes nothing else and keeps which characters cleaning keeps |
| Matching.Cleaned | locate.go:119-128 | every character of the cleaned string is a letter, digit or space, and it is no longer than the input |
| Matching.Clean | locate.go:120-128 | the loop that writes kept runes to a buffer yields exactly the cleaned string |
| Matching.CleanedAppend | locate.go:122-126 | cleaning works character by character: cleaning a concatenation concatenates the cleaned parts |
| Matching.CleanedCount | locate.go:123 | each kept character occurs in the result as often as in the input, and each dropped character never occurs |
| Matching.CleanedSubsequence | locate.go:122-126 | the cleaned string is a subsequence of the input, so order is kept |
| Matching.CleanedKeepsKept | locate.go:123-124 | a string made only of letters, digits and spaces is unchanged |
| Matching.CleanedDropsAll | locate.go:123 | a string with no letter, digit or space cleans to the empty string |
| Matching.CleanedIdempotent | locate.go:119-128 | cleaning twice is the same as cleaning once |
| Matching.CleanedDropsOne | locate.go:123 | deleting one dropped character from the input does not change the cleaned result |
| Matching.CleanedLowerCommute | locate.go:114-115 | cleaning and lower-casing commute |
| Matching.LowerAppend | locate.go:114 | lower-casing a concatenation concatenates the lower-cased parts |
| Matching.LowerIdempotent | locate.go:114 | lower-casing twice is the same as lower-casing once |
| Matching.CleanedKeepsPlainName | match_test.go:13 | `Bob Dylan` cleans to itself |
| Matching.CleanedDropsAmpersand | match_test.go:14 | `Bob Dylan & The Band` cleans to `Bob Dylan  The Band`, keeping both spaces |
| Matching.CleanedDropsSlash | match_test.go:15 | `AC/DC` cleans to `ACDC` |
| Matching.Match | locate.go:112-117 | a pattern whose cleaned lower-case form is empty fits every name, and a fitting pattern is never longer than the name once both are cleaned |
| Matching.ContainsTransitive | locate.go:116 | a substring of a substring is a substring |
| Matching.MatchEmptyPattern | locate.go:113-117 | a pattern with no letter, digit or space (the empty pattern among them) fits every name |
| Matching.MatchSelf | locate.go:113-117 | every name fits itself as a pattern |
| Matching.MatchTransitive | locate.go:113-117 | if p fits q and q fits s, then p fits s |
| Matching.MatchIgnoresCase | locate.go:114-115 | lower-casing the pattern or the name first does not change whether they match |
| Matching.MatchIgnoresPunctuation | locate.go:114-116 | inserting a dropped character into the name or into the pattern does not change whether they match |
| Matching.MatchExtends | locate.go:116 | a pattern that fits a name also fits that name with text added before or after it |
| Matching.MatchExamples | match_test.go:31-35 | the five test pairs all match: `The Who`, `acdc`/`AC/DC`, `bob dylan`/`Bob Dylan`, and `bob dylan` and `the band` against `Bob Dylan & The Band` |
| Matching.LowerMatches | locate.go:113-117 | a name's own lower-cased form fits it as a pattern |
| Selection.FirstMatchFrom | locate.go:264-269 | the result is the first entry from position i on whose name fits the pattern, or 0 when no such entry exists |
| Selection.FirstMatch | locate.go:262-270 | the result is the index of the first fitting entry, with none before it, or 0 when none fits; it is always a valid index of a non-empty listing |
| Selection.Find | locate.go:263-270 | the early-return loop computes exactly the first-match index |
| Selection.EmptyStartSelectsFirst | locate.go:176 | an empty resume pattern selects index 0, so an artist's albums play from their first track |
| Selection.SelectsNamedEntry | locate.go:262-270 | using an entry's own name as the pattern selects that entry or an earlier one whose name also contains it |
| Paths.Join | locate.go:39 | the joined path is the directory, one `/`, then the name |
| Paths.ElementStartSpec | locate.go:233 | the start of the final path element comes right after a `/`, and there is no `/` between it and the end |
| Paths.Base | locate.go:233 | the base name is a suffix of the path with no `/` in it, preceded by `/` when shorter than the path |
| Paths.BaseOfJoin | locate.go:233-234 | the base name of `dir/name` is `name` when `name` has no `/` |
| Paths.ExtStartSpec | locate.go:287 | the extension starts at the last `.` of the final element, and no `.` or `/` follows it |
| Paths.TrimExt | locate.go:284-288 | trimming yields a prefix of the name; when it removes something, what it removes starts at a `.` and holds no other `.` and no `/` |
| Paths.TrimExtUnchanged | locate.go:284-288 | trimming removes nothing exactly when the final element has no `.` |
| Paths.TrimExtAppended | locate.go:284-288 | `name.ext` trims to `name` when `ext` has no `.` and no `/` |
| Paths.TrimExtExample | locate.go:285 | `dog.txt.orig` trims to `dog.txt` |
| Order.IntnRange | locate.go:183-186 | a draw below `e - b` gives a value in `[b, e)`, offset from `b` by the draw |
| Order.Swap | locate.go:160-162 | the two positions exchange their entries and every other position keeps its entry |
| Order.SwapPermutes | locate.go:160-162 | a swap neither loses nor duplicates an entry |
| Order.ShuffledFrom | locate.go:158-163 | the remaining swap steps keep the length and do not touch the positions already passed |
| Order.ShuffledFromPermutes | locate.go:158-163 | the swap steps together permute the listing |
| Order.Shuffled | locate.go:157-163 | the shuffle is a permutation of the listing |
| Order.Shuffle | locate.go:158-163 | the in-place loop over an array leaves the array equal to the shuffled listing, a permutation of the old contents |
| Order.Rotate | locate.go:165-169 | the rotation by k puts entries k.. first and entries ..k after them, each in its original order |
| Order.RotatePermutes | locate.go:167-169 | a rotation neither loses nor duplicates an entry |
| Order.ShuffledFront | locate.go:158-163 | the first entry after the shuffle is the one the first draw picked |
| Order.ShuffledZeroDraws | locate.go:158-163 | draws that are all 0 leave the order unchanged |
| Order.RotateRotate | locate.go:165-169 | rotating by a and then by b is rotating by a + b, modulo the length |
| Order.RotateBack | locate.go:165-169 | rotating by k and then by length - k restores the listing |
| Library.Contents | locate.go:96-110 | reading a directory succeeds exactly when it can be listed, giving all of its children in listing order; otherwise it fails with that path's read error |
| Locator.FirstHit | locate.go:34-42 | the result is the first directory whose name fits, with no fitting directory before it; it is none exactly when no directory fits |
| Locator.LocateArtist | locate.go:24-45 | a missing user gives that error, and an unreadable music directory gives its read error; otherwise the result is the first fitting artist directory, joined to the music directory, or nothing exactly when none fits |
| Locator.ScanArtists | locate.go:63-83 | an error is the read error of an artist directory that could not be read; a find is an album without the name shown; when every artist can be read and no album fits, nothing is found (Locator.ScanArtistsUpTo pins the result down exactly) |
| Locator.LocateAlbum | locate.go:53-84 | a missing user and an unreadable music directory are errors, and a find is an album played without its name shown (Locator.LocateAlbumExact gives the exact result) |
| Locator.FirstCandidateAppend | locate.go:63-81 | a first-match scan over two lists concatenated finds in the first list, or else in the second |
| Locator.FirstCandidateOfDir | locate.go:74-80 | scanning one artist's albums is a first-match scan of its fitting album directories |
| Locator.ScanArtistsFlattened | locate.go:63-83 | when every artist can be read, the nested scan finds the first fitting album of the flat list of all albums, artists in order and albums in order |
| Locator.LocateAlbumFlattened | locate.go:53-84 | LocateAlbum is that flat first-match search when nothing fails to read |
| Locator.FirstUnreadable | locate.go:68-72 | the position of the first artist directory that cannot be read, with every artist directory before it readable, or the end of the listing |
| Locator.ScanArtistsUpTo | locate.go:63-83 | the nested scan finds the first fitting album among the artists before the first unreadable artist directory; if there is none, it fails with that directory's read error, or finds nothing when all can be read |
| Locator.LocateAlbumExact | locate.go:53-84 | LocateAlbum finds the first fitting album listed before the first unreadable artist directory; otherwise it returns that directory's read error, or nothing when every artist can be read |
| Sequencer.TrackLabel | locate.go:230-236 | the label ends with the track name without its extension; when the album name is shown, it starts with the album directory's final element and a `/`; otherwise it is just the trimmed track name |
| Sequencer.TrackEffectsShape | locate.go:230-243 | one track prints its label only when tracks are announced, and then runs the player exactly once, on `album/track` |
| Sequencer.PlayTracks | locate.go:229-245 | a failure of the track loop is the player's error on a track from the starting one on, where the player does fail |
| Sequencer.PlayTracksPass | locate.go:229-245 | playing from track i succeeds exactly when the player fails on none of the tracks from i on |
| Sequencer.AlbumPlayed | locate.go:221-246 | an unreadable album fails with its read error and no effects; a successful album could be read and no track from the resume point on failed |
| Sequencer.PlayAlbum | locate.go:221-246 | playing an album yields exactly the session `AlbumPlayed` gives: the read error, or the track loop from the resume track |
| Sequencer.PlayFrom | locate.go:229-245 | the track loop yields exactly the session `PlayTracks` gives: it stops at the end or at the first failure, which it returns |
| Sequencer.ListAlbum | locate.go:248-260 | an unreadable album is an error; otherwise the names of the tracks from the resume track to the last are printed, one per line |
| Sequencer.PlayTracksUntil | locate.go:229-245 | playing from track i runs the player on the tracks up to and including the first one that fails, in order, and announces the same tracks; the outcome is that failure, or success when none fails |
| Sequencer.AlbumPlaysSuffix | locate.go:227-245 | when no track fails, an album runs exactly its tracks from the resume point to the end, in listing order, and earlier tracks are skipped, not wrapped |
| Sequencer.AlbumPlayStops | locate.go:240-243 | after the player fails on a track, no later track runs, and the error names that track's file |
| Sequencer.AlbumOfArtistPlaysAll | locate.go:176 | an album played for its artist, with an empty resume pattern, plays from its first track |
| Sequencer.LabelNamesAlbum | locate.go:230-236 | a track is announced as `Album/Track` without extension when the album name is shown, and as `Track` otherwise |
| Sequencer.QuietPlayPrintsNothing | locate.go:230 | without announcements, playing prints nothing |
| Sequencer.RunsAppend | locate.go:229-245 | the runs and the printed lines of a concatenation of effects are those of the parts, in order |
| Sequencer.ArtistOrder | locate.go:157-169 | the visit order is a permutation of the artist's listing |
| Sequencer.ArtistOrderStartsAtMatch | locate.go:165-169 | when some album fits the resume pattern, the visit starts at the first fitting album of the shuffled order |
| Sequencer.PlayAlbums | locate.go:171-180 | when every entry is `.DS_Store`, the album loop plays nothing and succeeds |
| Sequencer.PlayAlbumsOutcome | locate.go:171-180 | playing the albums succeeds exactly when every album played succeeds; a failure is the error of one of the albums played |
| Sequencer.PlayAlbumsStopsAt | locate.go:171-179 | when album k is the first album played that fails, the session is that of the albums before k, which passed, then album k's effects, ending with album k's error; nothing after k plays |
| Sequencer.AlbumPassRunsAll | locate.go:176 | an album that passes when played for its artist could be read, and the player ran on every one of its tracks, in order |
| Sequencer.PlayAlbumsRunsUntil | locate.go:171-179 | when album k is the first album played that fails, the player ran on every track of the albums before k, then on album k's tracks up to its failure, and the outcome is album k's error |
| Sequencer.PlayInOrder | locate.go:171-180 | the album loop yields exactly the session `PlayAlbums` gives for that order |
| Sequencer.ArtistPlayed | locate.go:151-181 | an unreadable artist fails with its read error and no effects; an artist with an empty listing plays nothing and succeeds |
| Sequencer.PlayArtist | locate.go:151-181 | playing an artist is an unreadable-directory error, or shuffling in place, rotating to the resume album and playing the albums in that order |
| Sequencer.ListArtist | locate.go:188-205 | an unreadable artist is an error; otherwise every entry name is printed, `.DS_Store` included, rotated so that the resume entry comes first |
| Sequencer.PlayAlbumsRunsAll | locate.go:171-180 | when every album can be read and every track plays, the album loop succeeds and runs every track of every album, in order |
| Sequencer.ArtistPlaysEveryTrack | locate.go:151-181 | in that case playing an artist runs every track of every album, album after album in the visit order, each album from its first track |

## Left out

- Finding the music directory and reading directories are modelled as
  inputs. The home directory is an `Option` and the file system a map.
  `NoHome` stands for the error of `user.Current`. `Unreadable` stands for
  every error of `os.Open` and `Readdir`. The model does not say which
  error message the system gives.
- Running the player and printing to the console are modelled as effects
  in a returned list. The player's failure is a fixed set of files. Timing,
  the player's own output and its exit codes are not modelled.
- The random source is a sequence of draws given as a parameter. Seeding
  the generator from the current second, and the resulting distribution of
  orders, are not modelled.
- Matching.IsLetter and Matching.IsDigit cover ASCII letters and digits
  only. Matching.LowerChar lower-cases ASCII only. The full Unicode tables
  behind `unicode.IsLetter`, `unicode.IsDigit` and `strings.ToLower` are not
  modelled. Every other character is treated as not a letter and not a
  digit. White space is the full Unicode set, as in `unicode.IsSpace`.
- Strings are sequences of characters. Decoding of invalid UTF-8 is not
  modelled.
- Paths.Join puts one `/` between its parts. The path cleaning that
  `filepath.Join` does (removing `..`, `.` and duplicate slashes) is not
  modelled.
- The music values' `Path` accessors and constructors are the `Music`
  datatype's fields and constructors.
- The `Error` type and `newError` in `locate.go` are not used by the
  modelled code and are not modelled.
- The command-line front end in `play.go` is not part of this model. That
  includes its fallback from artist to album search and its choice between
  playing and listing.
- `TestMatch` in match_test.go:26-44 compares the boolean result of
  `match` with an integer score (match_test.go:39-40), so it does not
  compile against `match` as declared at locate.go:113. Only the fact that
  each listed pair matches is modelled.
