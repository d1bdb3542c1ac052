/**
 * Slash-separated paths: joining a directory and a name, the final element
 * of a path, and removing a file-name extension.
 */
module Paths {
  import opened Library

  /** The child `name` of directory `dir`. */
  function Join(dir: Path, name: string): (r: Path)
    ensures |r| == |dir| + 1 + |name|
    ensures r[..|dir|] == dir && r[|dir|] == '/' && r[|dir| + 1..] == name
  {
    dir + "/" + name
  }

  /** Where the element of `s[..i]` that follows its last '/' starts (0 without a '/'). */
  function ElementStart(s: string, i: nat): (r: nat)
    requires i <= |s|
    ensures r <= i
  {
    if i == 0 then 0
    else if s[i - 1] == '/' then i
    else ElementStart(s, i - 1)
  }

  /** The final element of a path: the suffix after its last '/', with no '/' in it. */
  function Base(p: Path): (r: string)
    ensures |r| <= |p| && r == p[|p| - |r|..]
    ensures forall k :: 0 <= k < |r| ==> r[k] != '/'
    ensures |r| < |p| ==> p[|p| - |r| - 1] == '/'
  {
    ElementStartSpec(p, |p|);
    p[ElementStart(p, |p|)..]
  }

  /**
   * Where the extension of `s[..i]` starts: the index of the last '.' in its
   * final element, or |s| when that element has no '.'.
   */
  function ExtStart(s: string, i: nat): (r: nat)
    requires i <= |s|
    ensures r == |s| || r < i
  {
    if i == 0 then |s|
    else if s[i - 1] == '/' then |s|
    else if s[i - 1] == '.' then i - 1
    else ExtStart(s, i - 1)
  }

  /**
   * `s` without its extension: a prefix of `s`; what is removed starts at a
   * '.' and holds no other '.' and no '/'.
   */
  function TrimExt(s: string): (r: string)
    ensures |r| <= |s| && r == s[..|r|]
    ensures |r| < |s| ==> s[|r|] == '.'
    ensures |r| < |s| ==> forall k :: |r| < k < |s| ==> s[k] != '.' && s[k] != '/'
  {
    ExtStartSpec(s, |s|);
    s[..ExtStart(s, |s|)]
  }

  // ---------------------------------------------------------------------

  lemma {:induction false} ElementStartSpec(s: string, i: nat)
    requires i <= |s|
    ensures ElementStart(s, i) > 0 ==> s[ElementStart(s, i) - 1] == '/'
    ensures forall k :: ElementStart(s, i) <= k < i ==> s[k] != '/'
    decreases i
  {
    if i > 0 && s[i - 1] != '/' {
      ElementStartSpec(s, i - 1);
    }
  }

  lemma {:induction false} ExtStartSpec(s: string, i: nat)
    requires i <= |s|
    ensures ExtStart(s, i) < i ==> s[ExtStart(s, i)] == '.'
    ensures ExtStart(s, i) < i ==> forall k :: ExtStart(s, i) < k < i ==> s[k] != '.' && s[k] != '/'
    ensures ExtStart(s, i) == |s| ==> forall k :: ElementStart(s, i) <= k < i ==> s[k] != '.'
    decreases i
  {
    if i > 0 && s[i - 1] != '/' && s[i - 1] != '.' {
      ExtStartSpec(s, i - 1);
    }
  }

  /** TrimExt leaves `s` unchanged exactly when the final element of `s` has no '.'. */
  lemma TrimExtUnchanged(s: string)
    ensures |TrimExt(s)| == |s| <==> forall k :: 0 <= k < |Base(s)| ==> Base(s)[k] != '.'
  {
    if ExtStart(s, |s|) < |s| {
      TrimExtShortens(s);
    } else {
      TrimExtKeeps(s);
    }
  }

  lemma TrimExtShortens(s: string)
    requires ExtStart(s, |s|) < |s|
    ensures |TrimExt(s)| < |s|
    ensures exists k :: 0 <= k < |Base(s)| && Base(s)[k] == '.'
  {
    var e, b := ExtStart(s, |s|), ElementStart(s, |s|);
    ExtStartSpec(s, |s|);
    ElementStartSpec(s, |s|);
    assert TrimExt(s) == s[..e];
    var base := Base(s);
    assert base == s[b..];
    ExtBeforeElement(s, e, b);
    assert base[e - b] == '.';
  }

  lemma TrimExtKeeps(s: string)
    requires ExtStart(s, |s|) == |s|
    ensures |TrimExt(s)| == |s|
    ensures forall k :: 0 <= k < |Base(s)| ==> Base(s)[k] != '.'
  {
    var b := ElementStart(s, |s|);
    ExtStartSpec(s, |s|);
    assert TrimExt(s) == s[..|s|];
    var base := Base(s);
    assert base == s[b..];
    forall k | 0 <= k < |base|
      ensures base[k] != '.'
    {
      assert base[k] == s[b + k];
    }
  }

  /** A '.' with no '/' after it lies inside the final element, which starts after the last '/'. */
  lemma ExtBeforeElement(s: string, e: nat, b: nat)
    requires e < |s| && s[e] == '.'
    requires forall k :: e < k < |s| ==> s[k] != '/'
    requires b <= |s| && (b > 0 ==> s[b - 1] == '/')
    ensures b <= e
  {
    assert forall k :: e <= k < |s| ==> s[k] != '/';
  }

  /** Joining a name without a '/' and taking the final element gives the name back. */
  lemma BaseOfJoin(dir: Path, name: string)
    requires forall k :: 0 <= k < |name| ==> name[k] != '/'
    ensures Base(Join(dir, name)) == name
  {
    var p, r := Join(dir, name), Base(Join(dir, name));
    assert p[|dir|] == '/';
    assert |r| == |name|;
    assert p[|p| - |name|..] == name;
  }

  /** Appending '.' and an extension without '.' or '/' is undone by TrimExt. */
  lemma TrimExtAppended(name: string, ext: string)
    requires forall k :: 0 <= k < |ext| ==> ext[k] != '.' && ext[k] != '/'
    ensures TrimExt(name + "." + ext) == name
  {
    var s := name + "." + ext;
    var r := TrimExt(s);
    assert s[|name|] == '.';
    assert forall k :: |name| < k < |s| ==> s[k] == ext[k - |name| - 1];
    ExtStartSpec(s, |s|);
    ElementStartSpec(s, |s|);
    var b := ElementStart(s, |s|);
    assert b <= |name|;
    assert |r| == |name|;
    assert s[..|name|] == name;
  }

  /** The example from the program's own comment. */
  lemma TrimExtExample()
    ensures TrimExt("dog.txt.orig") == "dog.txt"
  {
    var ext := "orig";
    assert ext[0] == 'o' && ext[1] == 'r' && ext[2] == 'i' && ext[3] == 'g';
    assert "dog.txt.orig" == "dog.txt" + "." + ext;
    TrimExtAppended("dog.txt", ext);
  }
}
