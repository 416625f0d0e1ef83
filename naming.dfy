/** The photo-renaming script: the images of a folder, sorted by name, are
    taken in groups of four (label, beads, coins, buffers); the serial
    number read from the first photo of a group decides the new names, and
    a serial seen before marks the group as "post" rather than "pre". */
module Naming {
  import opened Common

  const ImageExtensions: seq<string> := [".jpg", ".jpeg", ".png"]

  /** `f.lower().endswith(image_extensions)` */
  predicate IsImageName(f: string) {
    EndsWithAny(Lower(f), ImageExtensions)
  }

  // ---------------------------------------------------------------------
  // `sorted_image_list`

  /** Python's string order: lexicographic on code points. */
  predicate LexLeq(a: string, b: string) {
    a == [] || (b != [] && (a[0] < b[0] || (a[0] == b[0] && LexLeq(a[1..], b[1..]))))
  }

  /** Any two strings are ordered one way or the other. */
  lemma {:induction false} LexTotal(a: string, b: string)
    ensures LexLeq(a, b) || LexLeq(b, a)
  {
    if a != [] && b != [] && a[0] == b[0] {
      LexTotal(a[1..], b[1..]);
    }
  }

  predicate Sorted(s: seq<string>) {
    forall i :: 0 <= i < |s| - 1 ==> LexLeq(s[i], s[i + 1])
  }

  /** The names the comprehension keeps, in listing order. */
  function ImageNames(listing: seq<string>): (kept: seq<string>)
    ensures forall f :: f in kept ==> IsImageName(f)
    ensures forall f :: f in listing && IsImageName(f) ==> f in kept
    ensures multiset(kept) <= multiset(listing)
  {
    if listing == [] then []
    else
      assert listing == [listing[0]] + listing[1..];
      (if IsImageName(listing[0]) then [listing[0]] else []) + ImageNames(listing[1..])
  }

  /** `x` inserted into a sorted sequence. */
  function Insert(x: string, s: seq<string>): (r: seq<string>)
    requires Sorted(s)
    ensures Sorted(r)
    ensures multiset(r) == multiset(s) + multiset{x}
    ensures r != [] && (r[0] == x || (s != [] && r[0] == s[0]))
  {
    if s == [] then [x]
    else if LexLeq(x, s[0]) then [x] + s
    else
      LexTotal(x, s[0]);
      assert Sorted(s[1..]);
      var rest := Insert(x, s[1..]);
      assert multiset(s) == multiset{s[0]} + multiset(s[1..]) by { assert s == [s[0]] + s[1..]; }
      [s[0]] + rest
  }

  /** `sorted(...)`: a sorted permutation. */
  function Sort(s: seq<string>): (r: seq<string>)
    ensures Sorted(r)
    ensures multiset(r) == multiset(s)
  {
    if s == [] then []
    else
      assert s == [s[0]] + s[1..];
      Insert(s[0], Sort(s[1..]))
  }

  /** `sorted_image_list`: the image names of a folder listing, sorted. */
  function SortedImageList(listing: seq<string>): (files: seq<string>)
    ensures Sorted(files)
    ensures multiset(files) == multiset(ImageNames(listing))
    ensures forall f :: f in files <==> f in listing && IsImageName(f)
  {
    var files := Sort(ImageNames(listing));
    assert forall f :: f in files <==> f in ImageNames(listing) by {
      forall f ensures f in files <==> f in ImageNames(listing) {
        assert f in files <==> f in multiset(files);
        assert f in ImageNames(listing) <==> f in multiset(ImageNames(listing));
      }
    }
    assert forall f :: f in ImageNames(listing) ==> f in listing by {
      forall f | f in ImageNames(listing) ensures f in listing {
        assert f in multiset(ImageNames(listing));
      }
    }
    files
  }

  // ---------------------------------------------------------------------
  // Groups of four

  /** `image_files[i:i + 4]` for `i` in `range(0, len, 4)`, keeping only the
      complete groups: one group per four files, in order, and a trailing
      group of fewer than four is dropped. */
  function Groups(files: seq<string>): (gs: seq<seq<string>>)
    ensures |gs| == |files| / 4
    ensures forall j :: 0 <= j < |gs| ==> gs[j] == files[4 * j..4 * j + 4]
  {
    seq(|files| / 4, j requires 0 <= j < |files| / 4 => files[4 * j..4 * j + 4])
  }

  // ---------------------------------------------------------------------
  // `re.findall(r'\b[A-Z]{4}\b', text.upper())`, on ASCII text

  /** A regex word character (ASCII letters, digits and underscore). */
  predicate IsWordChar(c: char) {
    'A' <= c <= 'Z' || 'a' <= c <= 'z' || '0' <= c <= '9' || c == '_'
  }

  /** Four capital letters at `k`, with a word boundary before and after. */
  predicate MatchAt(s: string, k: int) {
    0 <= k && k + 4 <= |s|
    && (forall j :: k <= j < k + 4 ==> 'A' <= s[j] <= 'Z')
    && (k == 0 || !IsWordChar(s[k - 1]))
    && (k + 4 == |s| || !IsWordChar(s[k + 4]))
  }

  /** The positions `findall` reports when scanning from `k`: it tries each
      position in turn and resumes after a match. */
  function MatchPositions(s: string, k: nat): (ps: seq<nat>)
    decreases |s| - k
    ensures forall i :: 0 <= i < |ps| ==> k <= ps[i] && ps[i] + 4 <= |s|
  {
    if k + 4 > |s| then []
    else if MatchAt(s, k) then [k] + MatchPositions(s, k + 4)
    else MatchPositions(s, k + 1)
  }

  /** The reported positions are matches, in increasing order. */
  lemma {:induction false} MatchPositionsSound(s: string, k: nat)
    decreases |s| - k
    ensures forall i :: 0 <= i < |MatchPositions(s, k)| ==> MatchAt(s, MatchPositions(s, k)[i])
    ensures forall i, j :: 0 <= i < j < |MatchPositions(s, k)| ==> MatchPositions(s, k)[i] < MatchPositions(s, k)[j]
  {
    if k + 4 <= |s| {
      if MatchAt(s, k) {
        MatchPositionsSound(s, k + 4);
        var rest := MatchPositions(s, k + 4);
        var ps := MatchPositions(s, k);
        assert ps == [k] + rest;
        assert forall i :: 1 <= i < |ps| ==> ps[i] == rest[i - 1];
      } else {
        MatchPositionsSound(s, k + 1);
      }
    }
  }

  /** No match from `k` on is missed: a match can only start where the
      previous one resumes, because a match is preceded by a non-word
      character and the letters of the previous match are word characters. */
  lemma {:induction false} MatchPositionsComplete(s: string, k: nat, m: nat)
    decreases |s| - k
    requires k <= m && MatchAt(s, m)
    ensures m in MatchPositions(s, k)
  {
    if MatchAt(s, k) {
      if m != k {
        MatchPositionsComplete(s, k + 4, m);
      }
    } else {
      MatchPositionsComplete(s, k + 1, m);
    }
  }

  /** The words `findall` returns for one upper-cased text, one per
      reported position. */
  function FindAll(s: string): (ws: seq<string>)
    ensures |ws| == |MatchPositions(s, 0)|
    ensures forall i :: 0 <= i < |ws| ==> |ws[i]| == 4
  {
    var ps := MatchPositions(s, 0);
    seq(|ps|, i requires 0 <= i < |ps| => s[ps[i]..ps[i] + 4])
  }

  /** The last word of a text comes from its last match: the match at the
      greatest position. */
  lemma LastWordIsLastMatch(s: string, m: nat)
    requires MatchAt(s, m)
    ensures FindAll(s) != []
    ensures var ps := MatchPositions(s, 0); var q := ps[|ps| - 1];
      m <= q && MatchAt(s, q) && FindAll(s)[|ps| - 1] == s[q..q + 4]
  {
    MatchPositionsComplete(s, 0, m);
    MatchPositionsSound(s, 0);
    var ps := MatchPositions(s, 0);
    var i :| 0 <= i < |ps| && ps[i] == m;
    var q := ps[|ps| - 1];
    assert m <= q by {
      if i < |ps| - 1 {
        assert ps[i] < q;
      }
    }
    assert MatchAt(s, q);
    assert FindAll(s)[|ps| - 1] == s[q..q + 4];
  }

  /** Every word is four capital letters. */
  lemma WordsAreFourCapitals(s: string, i: nat)
    requires i < |FindAll(s)|
    ensures forall j :: 0 <= j < 4 ==> 'A' <= FindAll(s)[i][j] <= 'Z'
  {
    MatchPositionsSound(s, 0);
    var p := MatchPositions(s, 0)[i];
    assert MatchAt(s, p);
  }

  /** The words of all OCR fragments, in order, as the loop collects them. */
  function AllWords(fragments: seq<string>): (ws: seq<string>)
  {
    if fragments == [] then []
    else AllWords(fragments[..|fragments| - 1]) + FindAll(Upper(fragments[|fragments| - 1]))
  }

  /** The fragments after the `i`-th contribute no words, so the last word
      overall is the last word of fragment `i`. */
  lemma {:induction false} SerialFromLastFragmentWithWords(fragments: seq<string>, i: nat)
    requires i < |fragments| && FindAll(Upper(fragments[i])) != []
    requires forall j :: i < j < |fragments| ==> FindAll(Upper(fragments[j])) == []
    ensures var ws := AllWords(fragments); var fw := FindAll(Upper(fragments[i]));
      ws != [] && ws[|ws| - 1] == fw[|fw| - 1]
  {
    var n := |fragments|;
    var p := fragments[..n - 1];
    if i < n - 1 {
      SerialFromLastFragmentWithWords(p, i);
      assert AllWords(fragments) == AllWords(p) + [];
    }
  }

  /** The `four_letter_words` loop: extends the list with each fragment's
      matches, in order. */
  method CollectWords(fragments: seq<string>) returns (words: seq<string>)
    ensures words == AllWords(fragments)
  {
    words := [];
    var i := 0;
    while i < |fragments|
      invariant 0 <= i <= |fragments|
      invariant words == AllWords(fragments[..i])
    {
      var cleaned := Upper(fragments[i]);
      var matches := FindAll(cleaned);
      assert fragments[..i + 1][..i] == fragments[..i];
      words := words + matches;
      i := i + 1;
    }
    assert fragments[..i] == fragments;
  }

  // ---------------------------------------------------------------------
  // New names

  const Labels: seq<string> := ["label", "beads", "coins", "buffers"]

  /** `Path(name).suffix`: from the last '.', provided it is neither the
      first nor the last character; otherwise empty. */
  function Suffix(name: string): (ext: string)
    ensures ext == [] || (ext[0] == '.' && EndsWith(name, ext) && '.' !in ext[1..])
  {
    var i := RFind(name, '.');
    if 0 < i < |name| - 1 then name[i..] else []
  }

  /** Lower-casing keeps dots where they are, and only there. */
  lemma LowerKeepsDots(f: string)
    ensures forall k :: 0 <= k < |f| ==> (Lower(f)[k] == '.' <==> f[k] == '.')
  {
  }

  /** Lower-casing commutes with taking a suffix. */
  lemma LowerSuffix(f: string, d: nat)
    requires d <= |f|
    ensures Lower(f[d..]) == Lower(f)[d..]
  {
    assert forall k :: 0 <= k < |f| - d ==> Lower(f[d..])[k] == LowerChar(f[d + k]);
  }

  /** An image name keeps its extension, in its own case, unless the dot
      is its first character (a name such as ".jpg" has no suffix). */
  lemma ImageSuffix(f: string, e: nat)
    requires e < |ImageExtensions| && EndsWith(Lower(f), ImageExtensions[e])
    ensures |f| > |ImageExtensions[e]| ==> Lower(Suffix(f)) == ImageExtensions[e]
    ensures |f| == |ImageExtensions[e]| ==> Suffix(f) == []
  {
    var x := ImageExtensions[e];
    assert x[0] == '.' && '.' !in x[1..];
    var d := |f| - |x|;
    var lf := Lower(f);
    assert lf[d..] == x;
    LowerKeepsDots(f);
    assert lf[d] == x[0];
    assert forall k :: d < k < |f| ==> lf[k] == x[1..][k - d - 1];
    assert f[d] == '.';
    assert forall k :: d < k < |f| ==> f[k] != '.';
    assert RFind(f, '.') == d;
    LowerSuffix(f, d);
  }

  /** `f"{serial} {time}{label}{ext}"` */
  function NewName(serial: string, repeat: bool, tag: string, ext: string): (name: string)
  {
    serial + " " + (if repeat then "post " else "pre ") + tag + ext
  }

  /** A new name starts with the serial and a space, then "post " for a
      repeat or "pre " otherwise, and ends with the label and the
      extension. */
  lemma NewNameFormat(serial: string, repeat: bool, tag: string, ext: string)
    ensures var name := NewName(serial, repeat, tag, ext);
      && |name| == |serial| + (if repeat then 6 else 5) + |tag| + |ext|
      && name[..|serial| + 1] == serial + " "
      && (repeat ==> name[|serial| + 1..|serial| + 6] == "post ")
      && (!repeat ==> name[|serial| + 1..|serial| + 5] == "pre ")
      && EndsWith(name, tag + ext)
  {
    var name := NewName(serial, repeat, tag, ext);
    var time: string := if repeat then "post " else "pre ";
    assert name == (serial + " ") + time + (tag + ext);
  }

  /** A rename: the old and the new file name, in the same folder. */
  type Move = (string, string)

  /** The four renames of a group, pairing its files with the labels. */
  function Renames(group: seq<string>, serial: string, repeat: bool): (moves: seq<Move>)
    requires |group| == 4
    ensures |moves| == 4
    ensures forall j :: 0 <= j < 4 ==>
      moves[j].0 == group[j] && moves[j].1 == NewName(serial, repeat, Labels[j], Suffix(group[j]))
  {
    seq(4, j requires 0 <= j < 4 => (group[j], NewName(serial, repeat, Labels[j], Suffix(group[j]))))
  }

  /** The serial read from a label photo: the last four-letter word of
      its OCR text, if it has one. */
  function SerialOf(fragments: seq<string>): (serial: Option<string>)
    ensures serial.None? <==> AllWords(fragments) == []
    ensures serial.Some? ==> serial.value == AllWords(fragments)[|AllWords(fragments)| - 1]
  {
    var words := AllWords(fragments);
    if words == [] then None else Some(words[|words| - 1])
  }

  /** One group: skipped, with the seen set unchanged, when the OCR text has
      no serial; otherwise the group is a repeat exactly when the serial was
      seen before, and the serial is seen afterwards. */
  function GroupOutcome(seen: set<string>, group: seq<string>, serial: Option<string>): (r: (seq<Move>, set<string>))
    requires |group| == 4
    ensures serial.None? ==> r == ([], seen)
    ensures serial.Some? ==> serial.value in r.1 && r.1 - {serial.value} == seen - {serial.value}
    ensures serial.Some? ==> r.0 == Renames(group, serial.value, serial.value in seen)
  {
    match serial
    case None => ([], seen)
    case Some(s) => (Renames(group, s, s in seen), seen + {s})
  }

  /** Every group has four files. */
  predicate Quartets(groups: seq<seq<string>>) {
    forall j :: 0 <= j < |groups| ==> |groups[j]| == 4
  }

  /** The groups processed in order, the seen set threaded through; `ocr`
      gives the text fragments read from a file. The seen set only grows. */
  function Plan(seen: set<string>, groups: seq<seq<string>>, ocr: string -> seq<string>): (r: (seq<Move>, set<string>))
    requires Quartets(groups)
    decreases |groups|
    ensures seen <= r.1
  {
    if groups == [] then ([], seen)
    else
      var first := GroupOutcome(seen, groups[0], SerialOf(ocr(groups[0][0])));
      var rest := Plan(first.1, groups[1..], ocr);
      (first.0 + rest.0, rest.1)
  }

  /** Two groups whose labels read the same serial: the first is renamed
      "pre" and the second "post" when the serial is new, and both "post"
      when it was seen before. */
  lemma PreThenPost(seen: set<string>, g1: seq<string>, g2: seq<string>, ocr: string -> seq<string>, serial: string)
    requires |g1| == 4 && |g2| == 4
    requires SerialOf(ocr(g1[0])) == Some(serial) && SerialOf(ocr(g2[0])) == Some(serial)
    ensures Plan(seen, [g1, g2], ocr).0 == Renames(g1, serial, serial in seen) + Renames(g2, serial, true)
  {
    var gs := [g1, g2];
    assert gs[1..] == [g2];
    assert gs[1..][1..] == [];
    var s1 := GroupOutcome(seen, g1, Some(serial)).1;
    assert serial in s1;
    var s2 := GroupOutcome(s1, g2, Some(serial)).1;
    assert [g2][1..] == [];
    assert Plan(s2, [], ocr).0 == [];
    assert Plan(s1, [g2], ocr).0 == Renames(g2, serial, true) + [];
    assert Plan(seen, gs, ocr).0 == Renames(g1, serial, serial in seen) + Plan(s1, [g2], ocr).0;
  }

  /** Every serial read along the way is in the final seen set. */
  lemma {:induction false} PlanSeesSerials(seen: set<string>, groups: seq<seq<string>>, ocr: string -> seq<string>, j: nat)
    requires Quartets(groups)
    requires j < |groups| && SerialOf(ocr(groups[j][0])).Some?
    decreases j
    ensures SerialOf(ocr(groups[j][0])).value in Plan(seen, groups, ocr).1
  {
    var first := GroupOutcome(seen, groups[0], SerialOf(ocr(groups[0][0])));
    if j > 0 {
      assert groups[1..][j - 1] == groups[j];
      PlanSeesSerials(first.1, groups[1..], ocr, j - 1);
    }
  }

  /** The renaming script's state: the serials it has seen. */
  class PhotoNamer {
    var seen: set<string>

    constructor()
      ensures seen == {}
    {
      seen := {};
    }

    /** One group of four: read the serial, decide pre or post, and record
        the serial. */
    method ProcessGroup(group: seq<string>, fragments: seq<string>) returns (moves: seq<Move>)
      requires |group| == 4
      modifies this
      ensures (moves, seen) == GroupOutcome(old(seen), group, SerialOf(fragments))
    {
      var fourLetterWords := CollectWords(fragments);
      if fourLetterWords == [] {
        return [];
      }
      var serial := fourLetterWords[|fourLetterWords| - 1];
      var isRepeat := serial in seen;
      if !isRepeat {
        seen := seen + {serial};
      }
      moves := [];
      var j := 0;
      while j < 4
        invariant 0 <= j <= 4
        invariant moves == Renames(group, serial, isRepeat)[..j]
      {
        moves := moves + [(group[j], NewName(serial, isRepeat, Labels[j], Suffix(group[j])))];
        j := j + 1;
      }
      assert moves == Renames(group, serial, isRepeat);
      assert seen == old(seen) + {serial};
    }

    /** `process_image_groups`: the complete groups of the sorted image
        names, each read by `ocr` from its first file. */
    method ProcessImageGroups(listing: seq<string>, ocr: string -> seq<string>) returns (moves: seq<Move>)
      modifies this
      ensures (moves, seen) == Plan(old(seen), Groups(SortedImageList(listing)), ocr)
    {
      var imageFiles := SortedImageList(listing);
      var groups := Groups(imageFiles);
      moves := ProcessGroups(groups, ocr);
    }

    /** One pass of the loop over the groups: group `i` is renamed, and
        what is left of the plan is the plan of the groups after it. */
    method ProcessNext(groups: seq<seq<string>>, i: nat, ocr: string -> seq<string>, moves: seq<Move>)
      returns (next: seq<Move>)
      requires i < |groups| && Quartets(groups[i..])
      modifies this
      ensures Quartets(groups[i + 1..])
      ensures next + Plan(seen, groups[i + 1..], ocr).0 == moves + Plan(old(seen), groups[i..], ocr).0
      ensures Plan(seen, groups[i + 1..], ocr).1 == Plan(old(seen), groups[i..], ocr).1
    {
      ghost var gs := groups[i..];
      assert gs[0] == groups[i] && gs[1..] == groups[i + 1..];
      var group := groups[i];
      var renamed := ProcessGroup(group, ocr(group[0]));
      ghost var rest := Plan(seen, groups[i + 1..], ocr);
      assert (moves + renamed) + rest.0 == moves + (renamed + rest.0);
      next := moves + renamed;
    }

    /** The loop over the groups. */
    method ProcessGroups(groups: seq<seq<string>>, ocr: string -> seq<string>) returns (moves: seq<Move>)
      requires Quartets(groups)
      modifies this
      ensures (moves, seen) == Plan(old(seen), groups, ocr)
    {
      ghost var plan := Plan(seen, groups, ocr);
      moves := [];
      var i := 0;
      assert groups[0..] == groups;
      assert moves + plan.0 == plan.0;
      while i < |groups|
        invariant 0 <= i <= |groups|
        invariant Quartets(groups[i..])
        invariant plan.0 == moves + Plan(seen, groups[i..], ocr).0
        invariant plan.1 == Plan(seen, groups[i..], ocr).1
      {
        moves := ProcessNext(groups, i, ocr, moves);
        i := i + 1;
      }
      assert groups[i..] == [];
      assert moves + [] == moves;
    }
  }
}
