/**
 * The resume selector: where listing or playback starts within a directory,
 * given a start pattern. The first entry whose name matches wins; when none
 * matches, or the listing is empty, it starts at index 0.
 */
module Selection {
  import opened Library
  import opened Matching

  /** The first index at or after `i` whose entry matches, or 0 when there is none. */
  function FirstMatchFrom(entries: seq<Entry>, pattern: string, i: nat): (r: nat)
    requires i <= |entries|
    ensures (exists j :: i <= j < |entries| && Match(pattern, entries[j].name)) ==>
              i <= r < |entries| && Match(pattern, entries[r].name) &&
              forall j :: i <= j < r ==> !Match(pattern, entries[j].name)
    ensures (forall j :: i <= j < |entries| ==> !Match(pattern, entries[j].name)) ==> r == 0
    decreases |entries| - i
  {
    if i == |entries| then 0
    else if Match(pattern, entries[i].name) then i
    else FirstMatchFrom(entries, pattern, i + 1)
  }

  /** Specification of the resume index. */
  function FirstMatch(entries: seq<Entry>, pattern: string): (r: nat)
    ensures |entries| == 0 ==> r == 0
    ensures |entries| > 0 ==> r < |entries|
    ensures (exists j :: 0 <= j < |entries| && Match(pattern, entries[j].name)) ==>
              Match(pattern, entries[r].name) &&
              forall j :: 0 <= j < r ==> !Match(pattern, entries[j].name)
    ensures (forall j :: 0 <= j < |entries| ==> !Match(pattern, entries[j].name)) ==> r == 0
  {
    FirstMatchFrom(entries, pattern, 0)
  }

  /** The scan the program runs: return the first matching index, else 0. */
  method Find(entries: seq<Entry>, pattern: string) returns (r: nat)
    ensures r == FirstMatch(entries, pattern)
  {
    var i := 0;
    while i < |entries|
      invariant i <= |entries|
      invariant FirstMatchFrom(entries, pattern, i) == FirstMatch(entries, pattern)
    {
      if Match(pattern, entries[i].name) {
        return i;
      }
      i := i + 1;
    }
    return 0;
  }

  /**
   * A start pattern with no letter, digit or space, the empty one included,
   * selects the first entry.
   */
  lemma EmptyStartSelectsFirst(entries: seq<Entry>, pattern: string)
    requires forall i :: 0 <= i < |pattern| ==> !Kept(pattern[i])
    ensures FirstMatch(entries, pattern) == 0
  {
    if |entries| > 0 {
      MatchEmptyPattern(pattern, entries[0].name);
    }
  }

  /** A start pattern that spells out the name of an entry selects that entry or an earlier one. */
  lemma SelectsNamedEntry(entries: seq<Entry>, k: nat)
    requires k < |entries|
    ensures FirstMatch(entries, entries[k].name) <= k
    ensures Match(entries[k].name, entries[FirstMatch(entries, entries[k].name)].name)
  {
    MatchSelf(entries[k].name);
  }
}
