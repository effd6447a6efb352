/** Paths, and what two states of a disk have in common. */
module Paths {
  type Path = seq<string>

  /** `name.bak-stamp` beside the file or directory; `unnamed` stands in for a path without a name. */
  function BackupPath(p: Path, stamp: string, unnamed: string): Path {
    if p == [] then [unnamed + ".bak-" + stamp] else p[..|p| - 1] + [p[|p| - 1] + ".bak-" + stamp]
  }

  lemma BackupIsElsewhere(p: Path, stamp: string, unnamed: string)
    ensures BackupPath(p, stamp, unnamed) != p
  {
    if p != [] {
      assert |BackupPath(p, stamp, unnamed)[|p| - 1]| > |p[|p| - 1]|;
    }
  }

  ghost predicate Same<T>(a: map<Path, T>, b: map<Path, T>, p: Path) {
    (p in a <==> p in b) && (p in a ==> a[p] == b[p])
  }

  /** Only the paths ps may differ. */
  ghost predicate Within<T>(a: map<Path, T>, b: map<Path, T>, ps: set<Path>) {
    forall p {:trigger Same(a, b, p)} :: p !in ps ==> Same(a, b, p)
  }

  ghost predicate StepsWithin<T>(a: map<Path, T>, trace: seq<map<Path, T>>, from: nat, ps: set<Path>) {
    forall i :: from <= i < |trace| ==> Within(a, trace[i], ps)
  }
}
