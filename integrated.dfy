/** The driver: walks the input folder, sorts the image files into four
    lists by the first keyword found in their lower-cased path, and runs
    each analysis on its list. */
module Integrated {
  import opened Common

  const AnalysableExtensions: seq<string> := [".jpg", ".jpeg", ".png", ".bmp", ".tiff"]

  /** One directory as `os.walk` yields it: its path and its file names. */
  datatype Dir = Dir(root: string, files: seq<string>)

  datatype Category = PreCoins | PostCoins | PreBuffers | PostBuffers

  /** The keyword of each category. */
  function Keyword(c: Category): string {
    match c
    case PreCoins => "pre coins"
    case PostCoins => "post coins"
    case PreBuffers => "pre buffers"
    case PostBuffers => "post buffers"
  }

  /** The order in which the keywords are tried. */
  function Rank(c: Category): nat {
    match c
    case PreCoins => 0
    case PostCoins => 1
    case PreBuffers => 2
    case PostBuffers => 3
  }

  /** `os.path.join(root, file)` on POSIX: an absolute file name replaces the
      root, and a separator is inserted unless the root is empty or already
      ends with one. */
  function Join(root: string, file: string): (path: string)
    ensures EndsWith(path, file)
    ensures |file| > 0 && file[0] == '/' ==> path == file
  {
    if |file| > 0 && file[0] == '/' then file
    else if root == [] || root[|root| - 1] == '/' then root + file
    else root + "/" + file
  }

  /** `file.lower().endswith((".jpg", ".jpeg", ".png", ".bmp", ".tiff"))` */
  predicate IsAnalysable(file: string) {
    EndsWithAny(Lower(file), AnalysableExtensions)
  }

  /** The list a path goes to: the keywords are tried in order on the
      lower-cased path (see `CategoryPrecedence`). */
  function CategoryOf(path: string): (c: Option<Category>)
  {
    var lowerPath := Lower(path);
    if Contains(lowerPath, "pre coins") then Some(PreCoins)
    else if Contains(lowerPath, "post coins") then Some(PostCoins)
    else if Contains(lowerPath, "pre buffers") then Some(PreBuffers)
    else if Contains(lowerPath, "post buffers") then Some(PostBuffers)
    else None
  }

  /** A path goes to the category of the first keyword, in the order pre
      coins, post coins, pre buffers, post buffers, that occurs in its
      lower-cased form, and to none when no keyword occurs. */
  lemma CategoryPrecedence(path: string)
    ensures var c := CategoryOf(path);
      && (c.Some? ==> Contains(Lower(path), Keyword(c.value)))
      && (c.Some? ==> forall d: Category :: Rank(d) < Rank(c.value) ==> !Contains(Lower(path), Keyword(d)))
      && (c.None? <==> forall d: Category :: !Contains(Lower(path), Keyword(d)))
  {
  }

  /** The analysable paths of one directory, in listing order. */
  function DirPaths(root: string, files: seq<string>): (paths: seq<string>)
    ensures |paths| <= |files|
  {
    if files == [] then []
    else
      var last := files[|files| - 1];
      DirPaths(root, files[..|files| - 1]) + (if IsAnalysable(last) then [Join(root, last)] else [])
  }

  /** The analysable paths of the whole walk, in discovery order. */
  function Discovered(walk: seq<Dir>): (paths: seq<string>)
  {
    if walk == [] then []
    else
      var last := walk[|walk| - 1];
      Discovered(walk[..|walk| - 1]) + DirPaths(last.root, last.files)
  }

  /** A directory contributes exactly the joined paths of its analysable
      files: every other extension is skipped. */
  lemma {:induction false} DirPathsMembers(root: string, files: seq<string>, p: string)
    ensures p in DirPaths(root, files) <==> exists f :: f in files && IsAnalysable(f) && p == Join(root, f)
  {
    if files != [] {
      var init := files[..|files| - 1];
      var last := files[|files| - 1];
      assert files == init + [last];
      DirPathsMembers(root, init, p);
    }
  }

  /** The walk contributes exactly what its directories contribute. */
  lemma {:induction false} DiscoveredMembers(walk: seq<Dir>, p: string)
    ensures p in Discovered(walk) <==> exists d :: d in walk && p in DirPaths(d.root, d.files)
  {
    if walk != [] {
      var init := walk[..|walk| - 1];
      var last := walk[|walk| - 1];
      assert walk == init + [last];
      DiscoveredMembers(init, p);
    }
  }

  /** The paths of one category, in the order given. */
  function Select(paths: seq<string>, c: Category): (sel: seq<string>)
    ensures |sel| <= |paths|
  {
    if paths == [] then []
    else
      var last := paths[|paths| - 1];
      Select(paths[..|paths| - 1], c) + (if CategoryOf(last) == Some(c) then [last] else [])
  }

  /** Selecting keeps order: the paths of a category found in `a` and then
      `b` are those found in `a` followed by those found in `b`. */
  lemma {:induction false} SelectAppend(a: seq<string>, b: seq<string>, c: Category)
    ensures Select(a + b, c) == Select(a, c) + Select(b, c)
  {
    if b == [] {
      assert a + b == a;
    } else {
      var init := b[..|b| - 1];
      var last := b[|b| - 1];
      assert b == init + [last];
      assert a + b == (a + init) + [last];
      SelectAppend(a, init, c);
      SelectStep(a + init, last, c);
      SelectStep(init, last, c);
      var tail := if CategoryOf(last) == Some(c) then [last] else [];
      AppendAssociative(Select(a, c), Select(init, c), tail);
    }
  }

  /** A path is in a category's list exactly when it was found and that is
      its category. */
  lemma {:induction false} SelectMembers(paths: seq<string>, c: Category, p: string)
    ensures p in Select(paths, c) <==> p in paths && CategoryOf(p) == Some(c)
  {
    if paths != [] {
      var init := paths[..|paths| - 1];
      SelectMembers(init, c, p);
      assert paths == init + [paths[|paths| - 1]];
    }
  }

  /** A path is in at most one list. */
  lemma ListsDisjoint(paths: seq<string>, c1: Category, c2: Category, p: string)
    requires c1 != c2
    ensures !(p in Select(paths, c1) && p in Select(paths, c2))
  {
    SelectMembers(paths, c1, p);
    SelectMembers(paths, c2, p);
  }

  /** A path with no keyword is in no list. */
  lemma NoKeywordNoList(paths: seq<string>, c: Category, p: string)
    requires forall d: Category :: !Contains(Lower(p), Keyword(d))
    ensures p !in Select(paths, c)
  {
    SelectMembers(paths, c, p);
    CategoryPrecedence(p);
  }

  /** A path is in a category's list exactly when it has that category and
      it is the joined path of an analysable file of some directory of the
      walk. */
  lemma ListedExactly(walk: seq<Dir>, c: Category, p: string)
    ensures p in Select(Discovered(walk), c)
            <==> CategoryOf(p) == Some(c)
                 && exists d, f :: d in walk && f in d.files && IsAnalysable(f) && p == Join(d.root, f)
  {
    SelectMembers(Discovered(walk), c, p);
    DiscoveredMembers(walk, p);
    forall d | d in walk
      ensures p in DirPaths(d.root, d.files) <==> exists f :: f in d.files && IsAnalysable(f) && p == Join(d.root, f)
    {
      DirPathsMembers(d.root, d.files, p);
    }
  }

  /** The walk: four lists, each path appended to the list of its category
      as it is found. */
  method CategorizeImages(walk: seq<Dir>) returns (images: map<Category, seq<string>>)
    ensures forall c: Category :: c in images && images[c] == Select(Discovered(walk), c)
  {
    images := map[PreCoins := [], PostCoins := [], PreBuffers := [], PostBuffers := []];
    var d := 0;
    assert walk[..0] == [];
    forall c: Category
      ensures c in images && images[c] == Select(Discovered(walk[..d]), c)
    {
      match c
      case PreCoins =>
      case PostCoins =>
      case PreBuffers =>
      case PostBuffers =>
    }
    while d < |walk|
      invariant 0 <= d <= |walk|
      invariant forall c: Category :: c in images && images[c] == Select(Discovered(walk[..d]), c)
    {
      ghost var before := Discovered(walk[..d]);
      assert walk[..d + 1][..d] == walk[..d];
      assert Discovered(walk[..d + 1]) == before + DirPaths(walk[d].root, walk[d].files);
      forall c: Category {
        SelectAppend(before, DirPaths(walk[d].root, walk[d].files), c);
      }
      images := ScanDirectory(images, walk[d].root, walk[d].files);
      d := d + 1;
    }
    assert walk[..d] == walk;
  }

  /** One more file of a directory adds its path when it is analysable. */
  lemma DirPathsStep(root: string, files: seq<string>, k: nat)
    requires k < |files|
    ensures DirPaths(root, files[..k + 1])
      == DirPaths(root, files[..k]) + (if IsAnalysable(files[k]) then [Join(root, files[k])] else [])
  {
    assert files[..k + 1][..k] == files[..k];
  }

  /** One more path joins the list of its own category only. */
  lemma SelectStep(paths: seq<string>, p: string, c: Category)
    ensures Select(paths + [p], c) == Select(paths, c) + (if CategoryOf(p) == Some(c) then [p] else [])
  {
    assert (paths + [p])[..|paths|] == paths;
  }

  /** The inner loop over one directory's files. */
  method ScanDirectory(images: map<Category, seq<string>>, root: string, files: seq<string>)
    returns (out: map<Category, seq<string>>)
    requires forall c: Category :: c in images
    ensures forall c: Category :: c in out && out[c] == images[c] + Select(DirPaths(root, files), c)
  {
    out := images;
    var k := 0;
    assert files[..0] == [];
    forall c: Category ensures out[c] == images[c] + Select(DirPaths(root, files[..0]), c) {
      assert images[c] + [] == images[c];
    }
    while k < |files|
      invariant 0 <= k <= |files|
      invariant forall c: Category :: c in out && out[c] == images[c] + Select(DirPaths(root, files[..k]), c)
    {
      out := AddFile(out, images, root, files, k);
      k := k + 1;
    }
    assert files[..k] == files;
  }

  /** One pass of the inner loop: the file's path, when analysable, is
      appended to the list of its category. */
  method AddFile(out: map<Category, seq<string>>, ghost images: map<Category, seq<string>>,
                 root: string, files: seq<string>, k: nat)
    returns (next: map<Category, seq<string>>)
    requires k < |files|
    requires forall c: Category :: c in images
    requires forall c: Category :: c in out && out[c] == images[c] + Select(DirPaths(root, files[..k]), c)
    ensures forall c: Category :: c in next && next[c] == images[c] + Select(DirPaths(root, files[..k + 1]), c)
  {
    var file := files[k];
    ghost var found := DirPaths(root, files[..k]);
    DirPathsStep(root, files, k);
    next := out;
    if IsAnalysable(file) {
      var fpath := Join(root, file);
      var cat := CategoryOf(fpath);
      if cat.Some? {
        next := out[cat.value := out[cat.value] + [fpath]];
      }
      PathAppended(out, next, images, found, fpath);
    } else {
      assert found + [] == found;
    }
  }

  /** Appending a found path to the list of its category, if any, keeps
      every list equal to its category's selection. */
  lemma PathAppended(out: map<Category, seq<string>>, next: map<Category, seq<string>>,
                     images: map<Category, seq<string>>, found: seq<string>, fpath: string)
    requires forall c: Category :: c in images
    requires forall c: Category :: c in out && out[c] == images[c] + Select(found, c)
    requires next == if CategoryOf(fpath).Some? then out[CategoryOf(fpath).value := out[CategoryOf(fpath).value] + [fpath]] else out
    ensures forall c: Category :: c in next && next[c] == images[c] + Select(found + [fpath], c)
  {
    forall c: Category ensures c in next && next[c] == images[c] + Select(found + [fpath], c) {
      SelectStep(found, fpath, c);
      AppendAssociative(images[c], Select(found, c), [fpath]);
    }
  }

  /** The analyses of the repository. */
  datatype Analysis = CoinPosition | LaminatePosition | Particulate | WaxMelt | PreBuffer | PostBuffer

  /** The list each analysis runs on. */
  function Source(a: Analysis): Category {
    match a
    case CoinPosition => PreCoins
    case LaminatePosition => PreCoins
    case Particulate => PostCoins
    case WaxMelt => PostCoins
    case PreBuffer => PreBuffers
    case PostBuffer => PostBuffers
  }

  /** Where each analysis stands in the driver's sequence. */
  function Order(a: Analysis): nat {
    match a
    case CoinPosition => 0
    case LaminatePosition => 1
    case Particulate => 2
    case WaxMelt => 3
    case PreBuffer => 4
    case PostBuffer => 5
  }

  /** The runs the driver calls for, in order: the coin-position and
      laminate analyses on the pre-coins list, the particulate and wax-melt
      analyses on the post-coins list, and each buffer analysis on its own
      list. An analysis is called for, once, exactly when its list is not
      empty. */
  function Scheduled(images: map<Category, seq<string>>): (runs: seq<(Analysis, seq<string>)>)
    requires forall c: Category :: c in images
    ensures forall k :: 0 <= k < |runs| ==> runs[k].1 == images[Source(runs[k].0)] && runs[k].1 != []
    ensures forall a: Analysis :: (a, images[Source(a)]) in runs <==> images[Source(a)] != []
    ensures forall i, j :: 0 <= i < j < |runs| ==> Order(runs[i].0) < Order(runs[j].0)
  {
    (if images[PreCoins] != [] then [(CoinPosition, images[PreCoins]), (LaminatePosition, images[PreCoins])] else [])
    + (if images[PostCoins] != [] then [(Particulate, images[PostCoins]), (WaxMelt, images[PostCoins])] else [])
    + (if images[PreBuffers] != [] then [(PreBuffer, images[PreBuffers])] else [])
    + (if images[PostBuffers] != [] then [(PostBuffer, images[PostBuffers])] else [])
  }

  /** Running a sequence of analyses with no exception handler: each run
      starts in turn until one raises, which ends the script; the flag says
      whether one did. */
  function UpToRaise(runs: seq<(Analysis, seq<string>)>, raises: Analysis -> bool)
    : (r: (seq<(Analysis, seq<string>)>, bool))
    ensures |r.0| <= |runs| && r.0 == runs[..|r.0|]
    ensures r.1 <==> exists x :: x in runs && raises(x.0)
    ensures !r.1 ==> r.0 == runs
    ensures r.1 ==> |r.0| > 0 && raises(r.0[|r.0| - 1].0)
    ensures forall k :: 0 <= k < |r.0| - 1 ==> !raises(r.0[k].0)
  {
    if runs == [] then ([], false)
    else
      assert runs == [runs[0]] + runs[1..];
      if raises(runs[0].0) then ([runs[0]], true)
      else
        var rest := UpToRaise(runs[1..], raises);
        assert [runs[0]] + runs[1..][..|rest.0|] == runs[..|rest.0| + 1];
        ([runs[0]] + rest.0, rest.1)
  }

  /** The driver's analysis calls. `raises(a)` says whether analysis `a`
      ends with an exception on its list, as the coin analysis does when a
      later image misses a circle (`CoinAsWritten.Run`) and the wax analysis
      does on an empty rectangle (`Wax.Run`); nothing catches it, so it ends
      the script. The runs that start are a prefix of the scheduled ones:
      all of them when none raises, otherwise up to the one that raised. */
  function Dispatch(images: map<Category, seq<string>>, raises: Analysis -> bool)
    : (r: (seq<(Analysis, seq<string>)>, bool))
    requires forall c: Category :: c in images
    ensures |r.0| <= |Scheduled(images)| && r.0 == Scheduled(images)[..|r.0|]
    ensures !r.1 ==> r.0 == Scheduled(images)
    ensures r.1 ==> |r.0| > 0 && raises(r.0[|r.0| - 1].0)
  {
    UpToRaise(Scheduled(images), raises)
  }

  /** In a run sorted by position, an entry starts exactly when it is in
      the run and no entry before it raises. */
  lemma {:induction false} UpToRaiseMembers(runs: seq<(Analysis, seq<string>)>, raises: Analysis -> bool,
                                            x: (Analysis, seq<string>))
    requires forall i, j :: 0 <= i < j < |runs| ==> Order(runs[i].0) < Order(runs[j].0)
    ensures x in UpToRaise(runs, raises).0
            <==> x in runs && forall y :: y in runs && Order(y.0) < Order(x.0) ==> !raises(y.0)
  {
    if runs != [] {
      var rest := runs[1..];
      assert runs == [runs[0]] + rest;
      forall y | y in rest
        ensures Order(runs[0].0) < Order(y.0)
      {
        var j :| 0 <= j < |rest| && rest[j] == y;
        assert runs[j + 1] == y;
      }
      if !raises(runs[0].0) {
        UpToRaiseMembers(rest, raises, x);
      }
    }
  }

  /** Which analyses run: one runs exactly when its list is not empty and no
      analysis before it with a non-empty list raised; the script ends with
      an exception exactly when some analysis with a non-empty list
      raises. */
  lemma DispatchCharacterised(images: map<Category, seq<string>>, raises: Analysis -> bool, a: Analysis)
    requires forall c: Category :: c in images
    ensures (a, images[Source(a)]) in Dispatch(images, raises).0
            <==> images[Source(a)] != []
                 && forall b: Analysis :: Order(b) < Order(a) && images[Source(b)] != [] ==> !raises(b)
    ensures Dispatch(images, raises).1 <==> exists b: Analysis :: images[Source(b)] != [] && raises(b)
  {
    ScheduleRuns(Scheduled(images), images, raises, a);
  }

  /** The same for any schedule with the properties `Scheduled` promises. */
  lemma ScheduleRuns(s: seq<(Analysis, seq<string>)>, images: map<Category, seq<string>>,
                     raises: Analysis -> bool, a: Analysis)
    requires forall c: Category :: c in images
    requires forall k :: 0 <= k < |s| ==> s[k].1 == images[Source(s[k].0)] && s[k].1 != []
    requires forall b: Analysis :: (b, images[Source(b)]) in s <==> images[Source(b)] != []
    requires forall i, j :: 0 <= i < j < |s| ==> Order(s[i].0) < Order(s[j].0)
    ensures (a, images[Source(a)]) in UpToRaise(s, raises).0
            <==> images[Source(a)] != []
                 && forall b: Analysis :: Order(b) < Order(a) && images[Source(b)] != [] ==> !raises(b)
    ensures UpToRaise(s, raises).1 <==> exists b: Analysis :: images[Source(b)] != [] && raises(b)
  {
    forall y | y in s
      ensures y == (y.0, images[Source(y.0)]) && images[Source(y.0)] != []
    {
      var k :| 0 <= k < |s| && s[k] == y;
    }
    UpToRaiseMembers(s, raises, (a, images[Source(a)]));
  }
}
