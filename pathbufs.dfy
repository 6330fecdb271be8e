/** Paths as Rust's `Path::components()` sees them, with `join`, `push`,
    `parent`, `starts_with`, component-wise ordering, and the lexical
    `clean` of the path_clean crate (Go's `path.Clean` rules). */
module PathBufs {
  import opened Wrappers
  import Text

  datatype Component = RootDir | CurDir | ParentDir | Normal(name: string)

  /** A path is the sequence of its components. */
  type Path = seq<Component>

  predicate ValidName(s: string) { s != [] && s != "." && s != ".." && '/' !in s }

  /** The shape `Path::components()` produces: a root or `.` only in front,
      no empty or `.` names. */
  predicate WellFormed(p: Path)
  {
    && (forall i :: 0 < i < |p| ==> p[i].ParentDir? || p[i].Normal?)
    && (forall i :: 0 <= i < |p| && p[i].Normal? ==> ValidName(p[i].name))
  }

  predicate IsAbsolute(p: Path) { |p| > 0 && p[0] == RootDir }

  predicate AllNormal(p: Path) { forall i :: 0 <= i < |p| ==> p[i].Normal? }

  /** `/` followed by plain names only: the form of every clean absolute path. */
  predicate RootedNormal(p: Path) { |p| >= 1 && p[0] == RootDir && AllNormal(p[1..]) }

  /** An absolute path built from plain names, such as `/dev/null`. */
  function Abs(names: seq<string>): (p: Path)
    ensures RootedNormal(p) && |p| == |names| + 1
  {
    [RootDir] + seq(|names|, i requires 0 <= i < |names| => Normal(names[i]))
  }

  /** A relative path built from plain names, such as `dev/ptmx`. */
  function Rel(names: seq<string>): (p: Path)
    ensures AllNormal(p) && |p| == |names|
  {
    seq(|names|, i requires 0 <= i < |names| => Normal(names[i]))
  }

  function DropCur(p: Path): Path
  {
    if p != [] && p[0] == CurDir then p[1..] else p
  }

  /** `a.join(b)`: an absolute `b` replaces `a`. */
  function Join(a: Path, b: Path): Path
  {
    if IsAbsolute(b) then b
    else if a == [] then b
    else a + DropCur(b)
  }

  /** `Path::parent`: everything but the last component; none for `/` and the empty path. */
  function Parent(p: Path): Option<Path>
  {
    if p == [] || p[|p| - 1] == RootDir then None else Some(p[..|p| - 1])
  }

  /** `Path::starts_with`: component-wise prefix. */
  predicate StartsWith(p: Path, prefix: Path) { prefix <= p }

  // ---------------------------------------------------------------------
  // Parsing a string into components
  // ---------------------------------------------------------------------

  function PiecesToComponents(pieces: seq<string>): (p: Path)
    ensures forall i :: 0 <= i < |p| ==> p[i].ParentDir? || p[i].Normal?
  {
    if pieces == [] then []
    else
      var head := pieces[0];
      var c: Path := if head == "" || head == "." then [] else if head == ".." then [ParentDir] else [Normal(head)];
      c + PiecesToComponents(pieces[1..])
  }

  lemma {:induction false} PiecesNamesValid(pieces: seq<string>)
    requires forall j :: 0 <= j < |pieces| ==> '/' !in pieces[j]
    ensures forall i :: 0 <= i < |PiecesToComponents(pieces)| && PiecesToComponents(pieces)[i].Normal?
              ==> ValidName(PiecesToComponents(pieces)[i].name)
  {
    if pieces != [] {
      PiecesNamesValid(pieces[1..]);
    }
  }

  /** `PathBuf::from(s).components()` for a Unix path string. */
  function Parse(s: string): Path
  {
    var pieces := Text.Split(s, '/');
    var lead: Path := if s != [] && s[0] == '/' then [RootDir] else if pieces[0] == "." then [CurDir] else [];
    lead + PiecesToComponents(pieces)
  }

  /** Parsing always yields components in the shape `Path::components()` yields them. */
  lemma ParseWellFormed(s: string)
    ensures WellFormed(Parse(s))
    ensures IsAbsolute(Parse(s)) <==> (s != [] && s[0] == '/')
  {
    var pieces := Text.Split(s, '/');
    PiecesNamesValid(pieces);
    var rest := PiecesToComponents(pieces);
    var lead: Path := if s != [] && s[0] == '/' then [RootDir] else if pieces[0] == "." then [CurDir] else [];
    assert Parse(s) == lead + rest;
    forall i | 0 <= i < |Parse(s)| && Parse(s)[i].Normal?
      ensures ValidName(Parse(s)[i].name)
    {
      assert Parse(s)[i] == rest[i - |lead|];
    }
    forall i | 0 < i < |Parse(s)|
      ensures Parse(s)[i].ParentDir? || Parse(s)[i].Normal?
    {
      if i >= |lead| {
        assert Parse(s)[i] == rest[i - |lead|];
      }
    }
  }

  // ---------------------------------------------------------------------
  // Lexical cleaning
  // ---------------------------------------------------------------------

  /** One component of `clean`: drop `.`, let `..` eat a name (and vanish at `/`),
      and restart at a root (a root can only follow by joining an absolute path). */
  function CleanStep(out: Path, c: Component): Path
  {
    match c
    case RootDir => [RootDir]
    case CurDir => out
    case ParentDir =>
      if out != [] && out[|out| - 1] == RootDir then out
      else if out != [] && out[|out| - 1].Normal? then out[..|out| - 1]
      else out + [ParentDir]
    case Normal(_) => out + [c]
  }

  /** `clean` before the empty result is replaced by `.`. */
  function CleanAcc(p: Path): Path
  {
    if p == [] then [] else CleanStep(CleanAcc(p[..|p| - 1]), p[|p| - 1])
  }

  /** `p.clean()`. */
  function Clean(p: Path): (r: Path)
    ensures r != []
  {
    var out := CleanAcc(p);
    if out == [] then [CurDir] else out
  }

  lemma CleanAccSnoc(p: Path, c: Component)
    ensures CleanAcc(p + [c]) == CleanStep(CleanAcc(p), c)
  {
    assert (p + [c])[..|p|] == p;
  }

  /** Cleaning is a left fold: paths that clean alike stay alike when extended. */
  lemma {:induction false} CleanAccCongruent(a: Path, b: Path, y: Path)
    requires CleanAcc(a) == CleanAcc(b)
    ensures CleanAcc(a + y) == CleanAcc(b + y)
    decreases |y|
  {
    if y == [] {
      assert a + y == a && b + y == b;
    } else {
      var init, last := y[..|y| - 1], y[|y| - 1];
      CleanAccCongruent(a, b, init);
      assert a + y == (a + init) + [last];
      assert b + y == (b + init) + [last];
      CleanAccSnoc(a + init, last);
      CleanAccSnoc(b + init, last);
    }
  }

  /** Cleaning a path followed by plain names cleans the path and keeps the names. */
  lemma {:induction false} CleanAccAppendNormals(p: Path, ns: Path)
    requires AllNormal(ns)
    ensures CleanAcc(p + ns) == CleanAcc(p) + ns
    decreases |ns|
  {
    if ns == [] {
      assert p + ns == p;
      assert CleanAcc(p) + ns == CleanAcc(p);
    } else {
      var init, last := ns[..|ns| - 1], ns[|ns| - 1];
      assert AllNormal(init) && last.Normal?;
      assert init + [last] == ns;
      CleanAccAppendNormals(p, init);
      assert CleanAcc(p + ns) == CleanStep(CleanAcc(p + init), last) by {
        assert p + ns == (p + init) + [last];
        CleanAccSnoc(p + init, last);
      }
      assert CleanStep(CleanAcc(p) + init, last) == CleanAcc(p) + init + [last];
    }
  }

  lemma CleanStepRooted(out: Path, c: Component)
    requires RootedNormal(out) || c == RootDir
    ensures RootedNormal(CleanStep(out, c))
  {
    var r := CleanStep(out, c);
    if c.ParentDir? && out != [] && out[|out| - 1].Normal? {
      assert |out| >= 2;
      assert r[1..] == out[1..|out| - 1];
    } else if c.Normal? {
      assert r[1..] == out[1..] + [c];
    }
  }

  /** Cleaning any path that contains a root yields `/` followed by plain names. */
  lemma {:induction false} CleanAccRooted(p: Path)
    requires RootDir in p
    ensures RootedNormal(CleanAcc(p))
    decreases |p|
  {
    var last := p[|p| - 1];
    var init := p[..|p| - 1];
    if last != RootDir {
      assert p == init + [last];
      assert RootDir in init;
      CleanAccRooted(init);
    }
    CleanStepRooted(CleanAcc(init), last);
  }

  /** The shape of every clean path: `/` and names, or some `..` followed by names. */
  predicate CleanShape(p: Path)
  {
    RootedNormal(p) ||
    ((forall i :: 0 <= i < |p| ==> p[i].ParentDir? || p[i].Normal?) &&
     (forall i, j :: 0 <= i < j < |p| && p[i].Normal? ==> p[j].Normal?))
  }

  lemma CleanStepShape(out: Path, c: Component)
    requires CleanShape(out)
    ensures CleanShape(CleanStep(out, c))
  {
    var r := CleanStep(out, c);
    if RootedNormal(out) || c == RootDir {
      CleanStepRooted(out, c);
    } else if c.Normal? {
      assert r == out + [c];
    } else if c.ParentDir? {
      if out != [] && out[|out| - 1].Normal? {
        assert r == out[..|out| - 1];
      } else {
        assert r == out + [ParentDir];
        assert forall i :: 0 <= i < |out| ==> out[i].ParentDir?;
      }
    }
  }

  lemma {:induction false} CleanAccShape(p: Path)
    ensures CleanShape(CleanAcc(p))
    decreases |p|
  {
    if p != [] {
      CleanAccShape(p[..|p| - 1]);
      CleanStepShape(CleanAcc(p[..|p| - 1]), p[|p| - 1]);
    }
  }

  lemma {:induction false} CleanAccFixesShape(p: Path)
    requires CleanShape(p)
    ensures CleanAcc(p) == p
    decreases |p|
  {
    if p != [] {
      var init := p[..|p| - 1];
      var last := p[|p| - 1];
      assert p == init + [last];
      if |init| == 0 {
        assert CleanAcc(p) == CleanStep([], last);
      } else {
        assert CleanShape(init) by {
          if RootedNormal(p) {
            assert init[1..] == p[1..|p| - 1];
          }
        }
        CleanAccFixesShape(init);
        if last.ParentDir? {
          assert !RootedNormal(p);
          assert !init[|init| - 1].Normal?;
          assert init[|init| - 1] != RootDir;
        }
      }
    }
  }

  /** Cleaning is idempotent. */
  lemma CleanIdempotent(p: Path)
    ensures Clean(Clean(p)) == Clean(p)
  {
    CleanAccShape(p);
    if CleanAcc(p) == [] {
      assert CleanAcc([CurDir]) == CleanStep([], CurDir);
    } else {
      CleanAccFixesShape(CleanAcc(p));
    }
  }

  // ---------------------------------------------------------------------
  // Ordering (`Ord for Path` compares components)
  // ---------------------------------------------------------------------

  function Rank(c: Component): nat
  {
    match c
    case RootDir => 0
    case CurDir => 1
    case ParentDir => 2
    case Normal(_) => 3
  }

  predicate ComponentLess(a: Component, b: Component)
  {
    if Rank(a) != Rank(b) then Rank(a) < Rank(b)
    else a.Normal? && b.Normal? && Text.StrLess(a.name, b.name)
  }

  predicate PathLess(a: Path, b: Path)
  {
    if a == [] then b != []
    else if b == [] then false
    else if a[0] != b[0] then ComponentLess(a[0], b[0])
    else PathLess(a[1..], b[1..])
  }

  lemma ComponentLessTotal(a: Component, b: Component)
    requires a != b
    ensures ComponentLess(a, b) || ComponentLess(b, a)
  {
    if Rank(a) == Rank(b) && a.Normal? {
      Text.StrLessTotal(a.name, b.name);
    }
  }

  lemma ComponentLessTransitive(a: Component, b: Component, c: Component)
    requires ComponentLess(a, b) && ComponentLess(b, c)
    ensures ComponentLess(a, c)
  {
    if Rank(a) == Rank(b) == Rank(c) {
      Text.StrLessTransitive(a.name, b.name, c.name);
    }
  }

  lemma ComponentLessIrreflexive(a: Component)
    ensures !ComponentLess(a, a)
  {
    if a.Normal? { Text.StrLessIrreflexive(a.name); }
  }

  lemma ComponentLessAsymmetric(a: Component, b: Component)
    requires ComponentLess(a, b)
    ensures !ComponentLess(b, a)
  {
    if Rank(a) == Rank(b) { Text.StrLessAsymmetric(a.name, b.name); }
  }

  lemma {:induction false} PathLessIrreflexive(a: Path)
    ensures !PathLess(a, a)
  {
    if a != [] { PathLessIrreflexive(a[1..]); }
  }

  lemma {:induction false} PathLessTransitive(a: Path, b: Path, c: Path)
    requires PathLess(a, b) && PathLess(b, c)
    ensures PathLess(a, c)
  {
    if a != [] && b != [] && c != [] {
      if a[0] == b[0] && b[0] == c[0] {
        PathLessTransitive(a[1..], b[1..], c[1..]);
      } else if a[0] != b[0] && b[0] != c[0] {
        ComponentLessTransitive(a[0], b[0], c[0]);
        if a[0] == c[0] {
          ComponentLessAsymmetric(a[0], b[0]);
        }
      }
    }
  }

  lemma {:induction false} PathLessTotal(a: Path, b: Path)
    requires a != b
    ensures PathLess(a, b) || PathLess(b, a)
  {
    if a != [] && b != [] {
      if a[0] == b[0] {
        assert a == [a[0]] + a[1..] && b == [b[0]] + b[1..];
        PathLessTotal(a[1..], b[1..]);
      } else {
        ComponentLessTotal(a[0], b[0]);
      }
    }
  }

  lemma {:induction false} PathLessAsymmetric(a: Path, b: Path)
    requires PathLess(a, b)
    ensures !PathLess(b, a)
  {
    if a != [] && b != [] {
      if a[0] == b[0] {
        PathLessAsymmetric(a[1..], b[1..]);
      } else {
        ComponentLessAsymmetric(a[0], b[0]);
      }
    }
  }
}
