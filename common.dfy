/** Values shared by every analysis: optional values, CSV cells, regions of
    interest, Python-style slicing and path helpers, ASCII text helpers. */
module Common {

  datatype Option<T> = None | Some(value: T)

  /** One cell of a CSV row, as the csv writer receives it. `NA` is the
      literal string "NA" the buffer analyses write for an undefined scale. */
  datatype Field = Text(s: string) | Int(i: int) | Real(r: real) | Flag(b: bool) | NA

  type Row = seq<Field>

  /** The header row: every cell is text. */
  function HeaderRow(names: seq<string>): (r: Row)
    ensures |r| == |names|
    ensures forall k :: 0 <= k < |r| ==> r[k] == Text(names[k])
  {
    seq(|names|, k requires 0 <= k < |names| => Text(names[k]))
  }

  /** An axis-aligned region of interest in full-image pixel coordinates:
      rows [top, bottom), columns [left, right). */
  datatype Roi = Roi(top: int, bottom: int, left: int, right: int)

  /** An input image: its path and, when `cv2.imread` could decode it, the
      OpenCV outputs the analysis consumes (`None` models a `None` image). */
  datatype Image<T> = Image(path: string, data: Option<T>)

  /** The rows a per-image loop appends: `rowOf` gives the row of a
      readable image (or `None` when the loop `continue`s past it), and
      unreadable images give none. */
  function Emitted<C, T>(cfg: C, images: seq<Image<T>>, rowOf: (C, string, T) -> Option<Row>): (rows: seq<Row>)
    ensures |rows| <= |images|
  {
    if images == [] then []
    else
      var last := images[|images| - 1];
      Emitted(cfg, images[..|images| - 1], rowOf)
        + (if last.data.None? then []
           else match rowOf(cfg, last.path, last.data.value)
                case None => []
                case Some(row) => [row])
  }

  /** Regrouping concatenations, proved apart from any surrounding context. */
  lemma AppendAssociative<T>(x: seq<T>, y: seq<T>, z: seq<T>)
    ensures (x + y) + z == x + (y + z)
  {
  }

  /** Emitting is compositional over the batch: the rows of `a + b` are the
      rows of `a` followed by the rows of `b`, so rows keep input order and
      one image never affects another's row. */
  lemma {:induction false} EmittedAppend<C, T>(cfg: C, a: seq<Image<T>>, b: seq<Image<T>>, rowOf: (C, string, T) -> Option<Row>)
    ensures Emitted(cfg, a + b, rowOf) == Emitted(cfg, a, rowOf) + Emitted(cfg, b, rowOf)
  {
    if b != [] {
      var ab := a + b;
      assert ab[..|ab| - 1] == a + b[..|b| - 1];
      EmittedAppend(cfg, a, b[..|b| - 1], rowOf);
    } else {
      assert a + b == a;
    }
  }

  /** One more loop iteration: the rows of the first `i + 1` images are the
      rows of the first `i` followed by the row, if any, of image `i`. */
  lemma EmittedPrefix<C, T>(cfg: C, images: seq<Image<T>>, i: nat, rowOf: (C, string, T) -> Option<Row>)
    requires i < |images|
    ensures Emitted(cfg, images[..i + 1], rowOf)
      == Emitted(cfg, images[..i], rowOf)
         + (if images[i].data.None? || rowOf(cfg, images[i].path, images[i].data.value).None? then []
            else [rowOf(cfg, images[i].path, images[i].data.value).value])
  {
    assert images[..i + 1][..i] == images[..i];
  }

  /** One pass of a per-image loop that appends `row` (the image's row, or
      nothing for an unreadable image or a `continue`) to the CSV so far. */
  lemma AppendRow<C, T>(cfg: C, images: seq<Image<T>>, i: nat, rowOf: (C, string, T) -> Option<Row>,
                        header: Row, results: seq<Row>, row: Option<Row>)
    requires i < |images|
    requires results == [header] + Emitted(cfg, images[..i], rowOf)
    requires images[i].data.Some? ==> row == rowOf(cfg, images[i].path, images[i].data.value)
    requires images[i].data.None? ==> row.None?
    ensures results + (if row.Some? then [row.value] else []) == [header] + Emitted(cfg, images[..i + 1], rowOf)
  {
    EmittedPrefix(cfg, images, i, rowOf);
    var added := if row.Some? then [row.value] else [];
    assert results + added == [header] + (Emitted(cfg, images[..i], rowOf) + added);
  }

  /** The rows of a one-image batch. */
  lemma EmittedSingle<C, T>(cfg: C, img: Image<T>, rowOf: (C, string, T) -> Option<Row>)
    ensures Emitted(cfg, [img], rowOf)
      == if img.data.None? || rowOf(cfg, img.path, img.data.value).None? then []
         else [rowOf(cfg, img.path, img.data.value).value]
  {
    assert [img][..0] == [];
  }

  /** An unreadable image contributes no row. */
  lemma UnreadableEmitsNothing<C, T>(cfg: C, img: Image<T>, rowOf: (C, string, T) -> Option<Row>)
    requires img.data.None?
    ensures Emitted(cfg, [img], rowOf) == []
  {
    assert [img][..0] == [];
  }

  /** When every readable image yields a row, the batch has exactly one row
      per readable image. */
  lemma {:induction false} EmittedCount<C, T>(cfg: C, images: seq<Image<T>>, rowOf: (C, string, T) -> Option<Row>)
    requires forall p, t :: rowOf(cfg, p, t).Some?
    ensures |Emitted(cfg, images, rowOf)| == CountReadable(images)
  {
    if images != [] {
      EmittedCount(cfg, images[..|images| - 1], rowOf);
    }
  }

  function CountReadable<T>(images: seq<Image<T>>): (n: nat)
    ensures n <= |images|
  {
    if images == [] then 0
    else CountReadable(images[..|images| - 1]) + (if images[|images| - 1].data.Some? then 1 else 0)
  }

  function Abs(x: int): (r: nat)
    ensures r == x || r == -x
  {
    if x < 0 then -x else x
  }

  /** Python's `a // b` for a positive divisor (floor division, which for a
      positive divisor agrees with Dafny's Euclidean division). */
  function FloorDiv(a: int, b: int): (q: int)
    requires b > 0
    ensures q * b <= a < q * b + b
  {
    a / b
  }

  // ---------------------------------------------------------------------
  // Python slicing `s[lo:hi]` with step 1

  /** Where Python puts one slice bound for a sequence of length `n`:
      negative bounds count from the end, and both are clamped to [0, n]. */
  function SliceIndex(i: int, n: nat): (r: nat)
    ensures r <= n
    ensures 0 <= i <= n ==> r == i
    ensures i > n ==> r == n
    ensures i < -(n as int) ==> r == 0
    ensures -(n as int) <= i < 0 ==> r == i + n
  {
    if i < 0 then (if i + n < 0 then 0 else i + n)
    else if i > n then n else i
  }

  /** The half-open range `s[lo:hi]` selects: empty when the normalised lower
      bound is not below the upper one. */
  function SliceRange(lo: int, hi: int, n: nat): (r: (nat, nat))
    ensures r.0 <= r.1 <= n
  {
    var a := SliceIndex(lo, n);
    var b := SliceIndex(hi, n);
    if a <= b then (a, b) else (a, a)
  }

  // ---------------------------------------------------------------------
  // Text (ASCII approximation of Python's Unicode-aware operations)

  function LowerChar(c: char): (d: char)
    ensures 'A' <= c <= 'Z' ==> 'a' <= d <= 'z'
    ensures !('A' <= c <= 'Z') ==> d == c
  {
    if 'A' <= c <= 'Z' then (c as int + 32) as char else c
  }

  function UpperChar(c: char): (d: char)
    ensures 'a' <= c <= 'z' ==> 'A' <= d <= 'Z'
    ensures !('a' <= c <= 'z') ==> d == c
  {
    if 'a' <= c <= 'z' then (c as int - 32) as char else c
  }

  /** `str.lower()` */
  function Lower(s: string): (r: string)
    ensures |r| == |s|
    ensures forall k :: 0 <= k < |s| ==> r[k] == LowerChar(s[k])
  {
    seq(|s|, k requires 0 <= k < |s| => LowerChar(s[k]))
  }

  /** `str.upper()` */
  function Upper(s: string): (r: string)
    ensures |r| == |s|
    ensures forall k :: 0 <= k < |s| ==> r[k] == UpperChar(s[k])
  {
    seq(|s|, k requires 0 <= k < |s| => UpperChar(s[k]))
  }

  predicate EndsWith(s: string, suffix: string) {
    |suffix| <= |s| && s[|s| - |suffix|..] == suffix
  }

  /** `str.endswith(tuple)`: some member of the tuple is a suffix. */
  predicate EndsWithAny(s: string, suffixes: seq<string>) {
    exists k :: 0 <= k < |suffixes| && EndsWith(s, suffixes[k])
  }

  /** `needle in hay` for strings. */
  predicate Contains(hay: string, needle: string) {
    exists k :: 0 <= k <= |hay| - |needle| && OccursAt(hay, needle, k)
  }

  predicate OccursAt(hay: string, needle: string, k: int)
    requires 0 <= k <= |hay| - |needle|
  {
    hay[k..k + |needle|] == needle
  }

  /** Index of the last occurrence of `c`, or -1 (`str.rfind`). */
  function RFind(s: string, c: char): (i: int)
    ensures -1 <= i < |s|
    ensures i >= 0 ==> s[i] == c
    ensures forall k :: i < k < |s| ==> s[k] != c
  {
    if s == [] then -1
    else if s[|s| - 1] == c then |s| - 1
    else RFind(s[..|s| - 1], c)
  }

  /** `os.path.basename` (POSIX separator): the part after the last '/'. */
  function Basename(path: string): (r: string)
    ensures '/' !in r
    ensures EndsWith(path, r)
    ensures '/' !in path ==> r == path
  {
    path[RFind(path, '/') + 1..]
  }
}
