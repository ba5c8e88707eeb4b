/**
 * The storage backends behind the service, reduced to what the core uses:
 * a backend holds files (path to content) and directories, and offers
 * `has`, `createDir`, `write`, `delete`, `deleteDir` and `rename`; the mount
 * manager adds `copy` between two mounted backends.
 *
 * Where Flysystem refuses an operation by throwing, the primitive reports
 * `false` and changes nothing: writing over an existing file, renaming a
 * missing source or onto an existing file, deleting a missing file, and a
 * copy from a missing file, onto an existing one, or to an unmounted
 * backend. The destination checks look at files only.
 */
module Storage {

  datatype Backend = Backend(files: map<string, string>, dirs: set<string>)

  /** The result of a primitive: the backend afterwards and the reported success. */
  datatype Step = Step(backend: Backend, ok: bool)

  /** `$path` lies strictly below the directory `dir`. */
  predicate Under(path: string, dir: string)
  {
    |path| > |dir| + 1 && path[..|dir| + 1] == dir + "/"
  }

  /** `has($path)`: a file or a directory. */
  predicate Has(b: Backend, path: string)
  {
    path in b.files || path in b.dirs
  }

  /** `createDir($path)`. */
  function CreateDir(b: Backend, path: string): (s: Step)
    ensures s.ok && s.backend.files == b.files && s.backend.dirs == b.dirs + {path}
  {
    Step(Backend(b.files, b.dirs + {path}), true)
  }

  /** `write($path, $contents)`: refused when a file is already there. */
  function Write(b: Backend, path: string, contents: string): (s: Step)
    ensures s.ok <==> path !in b.files
    ensures s.ok ==> s.backend.files == b.files[path := contents] && s.backend.dirs == b.dirs
    ensures !s.ok ==> s.backend == b
  {
    if path in b.files then Step(b, false)
    else Step(Backend(b.files[path := contents], b.dirs), true)
  }

  /** `delete($path)`: refused when no file is there. */
  function Delete(b: Backend, path: string): (s: Step)
    ensures s.ok <==> path in b.files
    ensures s.backend.files == b.files - {path} && s.backend.dirs == b.dirs
  {
    if path in b.files then Step(Backend(b.files - {path}, b.dirs), true)
    else Step(b, false)
  }

  /**
   * `deleteDir($dir)`: removes the directory and everything below it;
   * reports whether there was a directory to remove.
   */
  function DeleteDir(b: Backend, dir: string): (s: Step)
    ensures s.ok <==> dir in b.dirs
    ensures dir !in s.backend.dirs
    ensures forall p :: p in s.backend.files <==> p in b.files && !Under(p, dir)
    ensures forall p :: p in s.backend.files ==> s.backend.files[p] == b.files[p]
    ensures forall d :: d in s.backend.dirs <==> d in b.dirs && d != dir && !Under(d, dir)
  {
    var files := map p | p in b.files && !Under(p, dir) :: b.files[p];
    var dirs := set d | d in b.dirs && d != dir && !Under(d, dir);
    Step(Backend(files, dirs), dir in b.dirs)
  }

  /** `rename($from, $to)`: refused unless `from` is a file and `to` is free. */
  function Rename(b: Backend, from: string, to: string): (s: Step)
    ensures s.ok <==> from in b.files && to !in b.files
    ensures s.ok ==> s.backend.files == (b.files - {from})[to := b.files[from]] && s.backend.dirs == b.dirs
    ensures !s.ok ==> s.backend == b
  {
    if from in b.files && to !in b.files then
      Step(Backend((b.files - {from})[to := b.files[from]], b.dirs), true)
    else
      Step(b, false)
  }

  /** The backends known to the service and to the mount manager, by ident. */
  type Mounts = map<string, Backend>

  /** The result of an operation over all mounts. */
  datatype Effect = Effect(mounts: Mounts, ok: bool)

  /**
   * `MountManager::copy("from://src", "to://dst")`: read `src` on one backend
   * and write it as `dst` on the other. Refused when either backend is not
   * mounted, the source is missing or the destination is taken.
   */
  function MountCopy(m: Mounts, fromIdent: string, src: string, toIdent: string, dst: string): (e: Effect)
    ensures e.ok <==> fromIdent in m && toIdent in m && src in m[fromIdent].files && dst !in m[toIdent].files
    ensures e.ok ==> e.mounts == m[toIdent := Backend(m[toIdent].files[dst := m[fromIdent].files[src]], m[toIdent].dirs)]
    ensures !e.ok ==> e.mounts == m
  {
    if fromIdent in m && toIdent in m && src in m[fromIdent].files then
      var s := Write(m[toIdent], dst, m[fromIdent].files[src]);
      if s.ok then Effect(m[toIdent := s.backend], true) else Effect(m, false)
    else
      Effect(m, false)
  }

  // Listing order
  // =========================================================================
  // A directory listing has an order that the backend chooses. The model
  // fixes one: ascending lexicographic order of the paths, so that "the first
  // listed match" is the least matching path.

  /** Lexicographic order on strings, by character code. */
  predicate Below(a: string, b: string)
    decreases |a|
  {
    a == [] || (b != [] && (a[0] < b[0] || (a[0] == b[0] && Below(a[1..], b[1..]))))
  }

  lemma {:induction false} BelowTotal(a: string, b: string)
    ensures Below(a, b) || Below(b, a)
    decreases |a|
  {
    if a != [] && b != [] && a[0] == b[0] {
      BelowTotal(a[1..], b[1..]);
    }
  }

  lemma {:induction false} BelowAntisymmetric(a: string, b: string)
    requires Below(a, b) && Below(b, a)
    ensures a == b
    decreases |a|
  {
    if a != [] && b != [] {
      BelowAntisymmetric(a[1..], b[1..]);
      assert a == [a[0]] + a[1..] && b == [b[0]] + b[1..];
    }
  }

  lemma {:induction false} BelowTransitive(a: string, b: string, c: string)
    requires Below(a, b) && Below(b, c)
    ensures Below(a, c)
    decreases |a|
  {
    if a != [] && b != [] && c != [] && a[0] == b[0] && b[0] == c[0] {
      BelowTransitive(a[1..], b[1..], c[1..]);
    }
  }

  predicate IsLeast(m: string, s: set<string>)
  {
    m in s && forall y :: y in s ==> Below(m, y)
  }

  lemma {:induction false} LeastExists(s: set<string>)
    requires s != {}
    ensures exists m :: IsLeast(m, s)
    decreases |s|
  {
    var x :| x in s;
    if s != {x} {
      var rest := s - {x};
      LeastExists(rest);
      var r :| IsLeast(r, rest);
      BelowTotal(x, r);
      if Below(x, r) {
        forall y | y in s ensures Below(x, y) {
          if y != x {
            BelowTransitive(x, r, y);
          } else {
            BelowTotal(x, x);
          }
        }
        assert IsLeast(x, s);
      } else {
        assert IsLeast(r, s);
      }
    } else {
      BelowTotal(x, x);
      assert IsLeast(x, s);
    }
  }

  /** The least path of a non-empty set: the first one a listing yields. */
  ghost function Least(s: set<string>): (m: string)
    requires s != {}
    ensures IsLeast(m, s)
  {
    LeastExists(s);
    var m :| IsLeast(m, s);
    m
  }

  lemma LeastUnique(m: string, s: set<string>)
    requires IsLeast(m, s)
    ensures m == Least(s)
  {
    BelowAntisymmetric(m, Least(s));
  }

  /** Finding the first listed element of a set, one element at a time. */
  method FirstListed(s: set<string>) returns (m: string)
    requires s != {}
    ensures m == Least(s)
  {
    m :| m in s;
    var rest := s - {m};
    BelowTotal(m, m);
    while rest != {}
      invariant rest <= s && m in s
      invariant forall y :: y in s && y !in rest ==> Below(m, y)
      decreases |rest|
    {
      var x :| x in rest;
      BelowTotal(m, x);
      if !Below(m, x) {
        forall y | y in s && y !in rest ensures Below(x, y) {
          BelowTransitive(x, m, y);
        }
        m := x;
        BelowTotal(m, m);
      }
      rest := rest - {x};
    }
    LeastUnique(m, s);
  }
}
