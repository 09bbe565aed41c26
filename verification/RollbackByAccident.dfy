/** Why the exact condition for the rollback script speaks of every point of the run: two
    commands that land in the wrong place can make up for each other. */
module RollbackByAccident {
  import opened Bytes
  import opened FileTree
  import opened Normalization

  // Trees written out as sets of nodes.

  type Nodes = set<(Path, Node)>

  predicate Has(fs: Fs, nodes: Nodes) {
    (forall i | i in nodes :: At(fs, i.0) == Some(i.1)) && forall p | p in fs :: (p, fs[p]) in nodes
  }

  function Carried(nodes: Nodes, from: Path, to: Path): Nodes {
    set i | i in nodes :: (Relocate(from, to, i.0), i.1)
  }

  lemma RenameForth(fs: Fs, from: Path, to: Path, p: Path)
    requires CanRename(fs, from, to) && p in fs
    ensures At(Rename(fs, from, to), Relocate(from, to, p)) == At(fs, p)
  {
    RenameAt(fs, from, to, Relocate(from, to, p));
    Apart(fs, from, to, p);
    assert from <= p ==> from + p[|from|..] == p;
  }

  lemma RenameBack(fs: Fs, from: Path, to: Path, q: Path) returns (p: Path)
    requires q in Rename(fs, from, to)
    ensures p in fs && Relocate(from, to, p) == q && fs[p] == Rename(fs, from, to)[q]
  {
    RenameAt(fs, from, to, q);
    p := if to <= q && from + q[|to|..] in fs then from + q[|to|..] else q;
    assert p != q ==> p[|from|..] == q[|to|..];
    assert to <= q ==> to + q[|to|..] == q;
  }

  lemma RenameHas(fs: Fs, from: Path, to: Path, nodes: Nodes)
    requires CanRename(fs, from, to) && Has(fs, nodes)
    ensures WellFormed(Rename(fs, from, to)) && Has(Rename(fs, from, to), Carried(nodes, from, to))
  {
    var r, c := Rename(fs, from, to), Carried(nodes, from, to);
    RenameKeepsWellFormed(fs, from, to);
    forall i | i in c ensures At(r, i.0) == Some(i.1) {
      var j :| j in nodes && i == (Relocate(from, to, j.0), j.1);
      RenameForth(fs, from, to, j.0);
    }
    forall q | q in r ensures (q, r[q]) in c {
      var p := RenameBack(fs, from, to, q);
      assert (p, fs[p]) in nodes;
    }
  }

  lemma Absent(fs: Fs, nodes: Nodes, p: Path)
    requires Has(fs, nodes) && forall i | i in nodes :: i.0 != p
    ensures p !in fs
  {
  }

  lemma MakeDirs(fs: Fs, nodes: Nodes, dirs: set<Path>)
    requires Has(fs, nodes) && forall d | d in dirs :: d !in fs
    ensures Has(WithDirs(fs, dirs), nodes + set d | d in dirs :: (d, Dir))
  {
  }

  /** A move is making the missing parents and renaming. */
  lemma MoveHas(fs: Fs, from: Path, to: Path, nodes: Nodes, missing: set<Path>)
    requires CanMove(fs, from, to) && Has(fs, nodes) && MissingAbove(fs, to) == missing
    ensures WellFormed(AfterMove(fs, from, to))
    ensures Has(AfterMove(fs, from, to), Carried(nodes + set d | d in missing :: (d, Dir), from, to))
  {
    MoveIsRename(fs, from, to);
    forall d | d in missing ensures d !in fs {
      MissingIsAbove(fs, to, d);
    }
    MakeDirs(fs, nodes, missing);
    RenameHas(WithDirs(fs, missing), from, to, nodes + set d | d in missing :: (d, Dir));
  }

  lemma Goes(from: Path, to: Path, p: Path, q: Path, rest: Path)
    requires from + rest == p && to + rest == q
    ensures Relocate(from, to, p) == q
  {
  }

  lemma Stays(from: Path, to: Path, p: Path, i: nat)
    requires i < |from| && (i < |p| ==> p[i] != from[i])
    ensures Relocate(from, to, p) == p
  {
  }

  // The directory `a` holds `c/b`, and `y` is a file. `a` moves to `e`, its file moves on to
  // `a/b`, the new `a` moves to `c`, and `y` moves to `a/b/z`.

  datatype Names = Names(a: string, b: string, c: string, e: string, y: string, z: string)

  predicate Distinct(n: Names) {
    n.a != n.c && n.a != n.e && n.a != n.y && n.c != n.e && n.c != n.y && n.e != n.y && n.b != n.c
  }

  function Rest(n: Names): seq<Move> {
    [Move([n.e, n.c, n.b], [n.a, n.b])] + ([Move([n.a], [n.c])] + [Move([n.y], [n.a, n.b, n.z])])
  }

  function Plan(n: Names): seq<Move> {
    [Move([n.a], [n.e])] + Rest(n)
  }

  function Nodes0(n: Names, f: Node, g: Node): Nodes {
    {([], Dir), ([n.a], Dir), ([n.a, n.c], Dir), ([n.a, n.c, n.b], f), ([n.y], g)}
  }

  function Nodes1(n: Names, f: Node, g: Node): Nodes {
    {([], Dir), ([n.e], Dir), ([n.e, n.c], Dir), ([n.e, n.c, n.b], f), ([n.y], g)}
  }

  function Nodes2(n: Names, f: Node, g: Node): Nodes {
    {([], Dir), ([n.e], Dir), ([n.e, n.c], Dir), ([n.a], Dir), ([n.a, n.b], f), ([n.y], g)}
  }

  function Nodes3(n: Names, f: Node, g: Node): Nodes {
    {([], Dir), ([n.e], Dir), ([n.e, n.c], Dir), ([n.c], Dir), ([n.c, n.b], f), ([n.y], g)}
  }

  /** After undoing the last move: its directories stay behind. */
  function Undone3(n: Names, f: Node, g: Node): Nodes {
    Nodes3(n, f, g) + {([n.a], Dir), ([n.a, n.b], Dir)}
  }

  /** `mv c a` lands in `a/c`: the file is back where it was at first. */
  function Undone2(n: Names, f: Node, g: Node): Nodes {
    {([], Dir), ([n.e], Dir), ([n.e, n.c], Dir), ([n.y], g), ([n.a], Dir), ([n.a, n.b], Dir), ([n.a, n.c], Dir), ([n.a, n.c, n.b], f)}
  }

  /** `mv a/b e/c/b` moves an empty directory instead of the file. */
  function Undone1(n: Names, f: Node, g: Node): Nodes {
    {([], Dir), ([n.e], Dir), ([n.e, n.c], Dir), ([n.y], g), ([n.a], Dir), ([n.e, n.c, n.b], Dir), ([n.a, n.c], Dir), ([n.a, n.c, n.b], f)}
  }

  /** There is such a tree. */
  lemma TreeToStartFrom(n: Names, f: Node, g: Node) returns (fs: Fs)
    requires Distinct(n)
    ensures WellFormed(fs) && Has(fs, Nodes0(n, f, g))
  {
    fs := map[[n.y] := g][[n.a, n.c, n.b] := f][[n.a, n.c] := Dir][[n.a] := Dir][[] := Dir];
    assert [n.a][0] == n.a && [n.y][0] == n.y;
    assert Has(fs, Nodes0(n, f, g));
    forall p, k | p in fs && 0 <= k < |p| ensures IsDir(fs, p[..k]) {
      assert p[..0] == [] && (|p| > 1 ==> p[..1] == [n.a]) && (|p| > 2 ==> p[..2] == [n.a, n.c]);
    }
  }

  // Where each step carries the nodes.

  lemma Carry1(n: Names, f: Node, g: Node)
    requires Distinct(n)
    ensures Carried(Nodes0(n, f, g), [n.a], [n.e]) == Nodes1(n, f, g)
  {
    Stays([n.a], [n.e], [], 0);
    Stays([n.a], [n.e], [n.y], 0);
    Goes([n.a], [n.e], [n.a], [n.e], []);
    Goes([n.a], [n.e], [n.a, n.c], [n.e, n.c], [n.c]);
    Goes([n.a], [n.e], [n.a, n.c, n.b], [n.e, n.c, n.b], [n.c, n.b]);
  }

  lemma Carry2(n: Names, f: Node, g: Node)
    requires Distinct(n)
    ensures Carried(Nodes1(n, f, g) + {([n.a], Dir)}, [n.e, n.c, n.b], [n.a, n.b]) == Nodes2(n, f, g)
  {
    var from, to := [n.e, n.c, n.b], [n.a, n.b];
    Stays(from, to, [], 2);
    Stays(from, to, [n.y], 2);
    Stays(from, to, [n.a], 2);
    Stays(from, to, [n.e], 2);
    Stays(from, to, [n.e, n.c], 2);
    Goes(from, to, from, to, []);
  }

  lemma Carry3(n: Names, f: Node, g: Node)
    requires Distinct(n)
    ensures Carried(Nodes2(n, f, g), [n.a], [n.c]) == Nodes3(n, f, g)
  {
    Stays([n.a], [n.c], [], 0);
    Stays([n.a], [n.c], [n.y], 0);
    Stays([n.a], [n.c], [n.e], 0);
    Stays([n.a], [n.c], [n.e, n.c], 0);
    Goes([n.a], [n.c], [n.a], [n.c], []);
    Goes([n.a], [n.c], [n.a, n.b], [n.c, n.b], [n.b]);
  }

  lemma Uncarry2(n: Names, f: Node, g: Node)
    requires Distinct(n)
    ensures Carried(Undone3(n, f, g), [n.c], [n.a, n.c]) == Undone2(n, f, g)
  {
    var from, to := [n.c], [n.a, n.c];
    Stays(from, to, [], 0);
    Stays(from, to, [n.y], 0);
    Stays(from, to, [n.e], 0);
    Stays(from, to, [n.e, n.c], 0);
    Stays(from, to, [n.a], 0);
    Stays(from, to, [n.a, n.b], 0);
    Goes(from, to, from, to, []);
    Goes(from, to, [n.c, n.b], [n.a, n.c, n.b], [n.b]);
  }

  lemma Uncarry1(n: Names, f: Node, g: Node)
    requires Distinct(n)
    ensures Carried(Undone2(n, f, g), [n.a, n.b], [n.e, n.c, n.b]) == Undone1(n, f, g)
  {
    var from, to := [n.a, n.b], [n.e, n.c, n.b];
    Stays(from, to, [], 1);
    Stays(from, to, [n.y], 1);
    Stays(from, to, [n.e], 1);
    Stays(from, to, [n.e, n.c], 0);
    Stays(from, to, [n.a], 1);
    Stays(from, to, [n.a, n.c], 1);
    Stays(from, to, [n.a, n.c, n.b], 1);
    Goes(from, to, from, to, []);
  }

  // The run is legal.

  lemma Parents(fs: Fs, t: Path)
    requires WellFormed(fs) && t != [] && IsDir(fs, t[..|t| - 1])
    ensures DirsAbove(fs, t) && MissingAbove(fs, t) == {}
  {
    var up := t[..|t| - 1];
    forall k | 0 <= k < |t| ensures IsDir(fs, t[..k]) {
      assert t[..k] == up[..k] && up[..|up|] == up;
    }
  }

  lemma Legal1(n: Names, fs: Fs, f: Node, g: Node)
    requires Distinct(n) && WellFormed(fs) && Has(fs, Nodes0(n, f, g))
    ensures CanMove(fs, [n.a], [n.e])
    ensures var next := AfterMove(fs, [n.a], [n.e]); WellFormed(next) && Has(next, Nodes1(n, f, g))
  {
    var to := [n.e];
    assert to[0] == n.e && [n.a][0] == n.a && [n.y][0] == n.y && to[..0] == [];
    Absent(fs, Nodes0(n, f, g), to);
    Parents(fs, to);
    assert ([n.a], Dir) in Nodes0(n, f, g);
    assert CanMove(fs, [n.a], to);
    Carry1(n, f, g);
    assert Nodes0(n, f, g) + (set d: Path | d in {} :: (d, Dir)) == Nodes0(n, f, g);
    MoveHas(fs, [n.a], to, Nodes0(n, f, g), {});
  }

  lemma CanMove2(n: Names, fs: Fs, f: Node, g: Node)
    requires Distinct(n) && WellFormed(fs) && Has(fs, Nodes1(n, f, g))
    ensures CanMove(fs, [n.e, n.c, n.b], [n.a, n.b]) && MissingAbove(fs, [n.a, n.b]) == {[n.a]}
  {
    var from, to := [n.e, n.c, n.b], [n.a, n.b];
    assert to[0] == n.a && [n.a][0] == n.a && [n.e][0] == n.e && [n.y][0] == n.y && [n.e, n.c][0] == n.e;
    assert to[..1] == [n.a];
    Absent(fs, Nodes1(n, f, g), to);
    Absent(fs, Nodes1(n, f, g), [n.a]);
    assert (from, f) in Nodes1(n, f, g);
    MissingOne(fs, to, [n.a]);
  }

  lemma Legal2(n: Names, fs: Fs, f: Node, g: Node)
    requires Distinct(n) && WellFormed(fs) && Has(fs, Nodes1(n, f, g))
    ensures CanMove(fs, [n.e, n.c, n.b], [n.a, n.b])
    ensures var next := AfterMove(fs, [n.e, n.c, n.b], [n.a, n.b]); WellFormed(next) && Has(next, Nodes2(n, f, g))
  {
    CanMove2(n, fs, f, g);
    Carry2(n, f, g);
    assert (set d | d in {[n.a]} :: (d, Dir)) == {([n.a], Dir)};
    MoveHas(fs, [n.e, n.c, n.b], [n.a, n.b], Nodes1(n, f, g), {[n.a]});
  }

  lemma Legal3(n: Names, fs: Fs, f: Node, g: Node)
    requires Distinct(n) && WellFormed(fs) && Has(fs, Nodes2(n, f, g))
    ensures CanMove(fs, [n.a], [n.c])
    ensures var next := AfterMove(fs, [n.a], [n.c]); WellFormed(next) && Has(next, Nodes3(n, f, g))
  {
    var to := [n.c];
    assert to[0] == n.c && [n.a][0] == n.a && [n.e][0] == n.e && [n.y][0] == n.y && to[..0] == [];
    Absent(fs, Nodes2(n, f, g), to);
    Parents(fs, to);
    assert ([n.a], Dir) in Nodes2(n, f, g);
    assert CanMove(fs, [n.a], to);
    Carry3(n, f, g);
    assert Nodes2(n, f, g) + (set d: Path | d in {} :: (d, Dir)) == Nodes2(n, f, g);
    MoveHas(fs, [n.a], to, Nodes2(n, f, g), {});
  }

  lemma Legal4(n: Names, fs: Fs, f: Node, g: Node)
    requires Distinct(n) && WellFormed(fs) && Has(fs, Nodes3(n, f, g))
    ensures CanMove(fs, [n.y], [n.a, n.b, n.z])
    ensures MissingAbove(fs, [n.a, n.b, n.z]) == {[n.a], [n.a, n.b]}
    ensures Has(WithDirs(fs, {[n.a], [n.a, n.b]}), Undone3(n, f, g))
  {
    var to := [n.a, n.b, n.z];
    assert to[0] == n.a && [n.a][0] == n.a && [n.a, n.b][0] == n.a && [n.e][0] == n.e && [n.y][0] == n.y;
    assert [n.e, n.c][0] == n.e && [n.c][0] == n.c && [n.c, n.b][0] == n.c;
    assert to[..0] == [] && to[..1] == [n.a] && to[..2] == [n.a, n.b];
    Absent(fs, Nodes3(n, f, g), to);
    Absent(fs, Nodes3(n, f, g), [n.a]);
    Absent(fs, Nodes3(n, f, g), [n.a, n.b]);
    assert ([n.y], g) in Nodes3(n, f, g);
    assert [n.a] in MissingAbove(fs, to) && [n.a, n.b] in MissingAbove(fs, to);
    assert (set d | d in {[n.a], [n.a, n.b]} :: (d, Dir)) == {([n.a], Dir), ([n.a, n.b], Dir)};
    MakeDirs(fs, Nodes3(n, f, g), {[n.a], [n.a, n.b]});
  }

  // The commands of the script.

  lemma Command2(n: Names, fs: Fs, f: Node, g: Node)
    requires Distinct(n) && WellFormed(fs) && Has(fs, Undone3(n, f, g))
    ensures var next := Rename(fs, [n.c], [n.a, n.c]);
            Mv(fs, [n.c], [n.a]) == Some(next) && WellFormed(next) && Has(next, Undone2(n, f, g))
  {
    var from, to := [n.c], [n.a, n.c];
    assert to[0] == n.a && to[1] == n.c && from[0] == n.c && [n.e, n.c][0] == n.e && [n.c, n.b][0] == n.c && [n.a, n.b][1] == n.b;
    assert to[..1] == [n.a] && [n.a] + [n.c] == to;
    Absent(fs, Undone3(n, f, g), to);
    assert ([n.a], Dir) in Undone3(n, f, g) && (from, Dir) in Undone3(n, f, g);
    Parents(fs, to);
    assert CanRename(fs, from, to);
    Uncarry2(n, f, g);
    RenameHas(fs, from, to, Undone3(n, f, g));
  }

  lemma Command1(n: Names, fs: Fs, f: Node, g: Node)
    requires Distinct(n) && WellFormed(fs) && Has(fs, Undone2(n, f, g))
    ensures var next := Rename(fs, [n.a, n.b], [n.e, n.c, n.b]);
            Mv(fs, [n.a, n.b], [n.e, n.c, n.b]) == Some(next) && WellFormed(next) && Has(next, Undone1(n, f, g))
  {
    var from, to := [n.a, n.b], [n.e, n.c, n.b];
    assert to[0] == n.e && [n.a, n.c, n.b][0] == n.a && from[0] == n.a && to[..2] == [n.e, n.c];
    Absent(fs, Undone2(n, f, g), to);
    assert (from, Dir) in Undone2(n, f, g) && ([n.e, n.c], Dir) in Undone2(n, f, g);
    Parents(fs, to);
    assert CanRename(fs, from, to);
    RenamableLandsExactly(fs, from, to);
    Uncarry1(n, f, g);
    RenameHas(fs, from, to, Undone2(n, f, g));
  }

  lemma Command0(n: Names, fs: Fs, f: Node, g: Node)
    requires Distinct(n) && WellFormed(fs) && Has(fs, Undone1(n, f, g))
    ensures var back := Mv(fs, [n.e], [n.a]);
            back.Some? && forall i | i in Nodes0(n, f, g) :: At(back.value, i.0) == Some(i.1)
  {
    var from, to := [n.e], [n.a, n.e];
    assert to[0] == n.a && to[1] == n.e && from[0] == n.e && [n.e, n.c][0] == n.e && [n.a, n.c][1] == n.c;
    assert to[..1] == [n.a] && [n.a] + [n.e] == to;
    Absent(fs, Undone1(n, f, g), to);
    assert ([n.a], Dir) in Undone1(n, f, g) && (from, Dir) in Undone1(n, f, g);
    Parents(fs, to);
    assert CanRename(fs, from, to);
    forall i | i in Nodes0(n, f, g) ensures At(Rename(fs, from, to), i.0) == Some(i.1) {
      assert i in Undone1(n, f, g);
      Stays(from, to, i.0, 0);
      RenameForth(fs, from, to, i.0);
    }
  }

  // Putting the run together, last move first.

  /** The run `moves` from `fs` to `end` is legal and carries files, and its script leads to `back`. */
  predicate Undoes(fs: Fs, moves: seq<Move>, end: Fs, back: Fs) {
    && Legal(fs, moves) && SourcesHoldFiles(fs, moves) && End(fs, moves) == end
    && RunScript(end, RollbackLines(moves)) == Some(back)
  }

  lemma UndoesCons(fs: Fs, m: Move, rest: seq<Move>, end: Fs, mid: Fs, back: Fs)
    requires CanMove(fs, m.source, m.target) && HoldsFile(fs, m.source)
    requires Undoes(AfterMove(fs, m.source, m.target), rest, end, mid) && Mv(mid, m.target, m.source) == Some(back)
    ensures Undoes(fs, [m] + rest, end, back)
    ensures !Clean(AfterMove(fs, m.source, m.target), rest) ==> !Clean(fs, [m] + rest)
  {
    LegalCons(fs, m, rest);
    assert ([m] + rest)[1..] == rest;
    ScriptSnoc(end, RollbackLines(rest), m, mid);
  }

  lemma LastMove(n: Names, fs: Fs, f: Node, g: Node) returns (back: Fs)
    requires Distinct(n) && WellFormed(fs) && Has(fs, Nodes3(n, f, g)) && g.File?
    ensures var moves := [Move([n.y], [n.a, n.b, n.z])];
            && Undoes(fs, moves, End(fs, moves), back) && [n.a] in Residue(fs, moves)
            && WellFormed(back) && Has(back, Undone3(n, f, g))
  {
    var m := Move([n.y], [n.a, n.b, n.z]);
    Legal4(n, fs, f, g);
    OneMove(fs, m);
    CleanRollbackRestores(fs, [m]);
    back := WithDirs(fs, {[n.a], [n.a, n.b]});
    FileAt(fs, Nodes3(n, f, g), [n.y], [n.y], g);
    assert [m][1..] == [];
  }

  lemma FileAt(fs: Fs, nodes: Nodes, s: Path, p: Path, x: Node)
    requires Has(fs, nodes) && (p, x) in nodes && x.File? && s <= p
    ensures HoldsFile(fs, s)
  {
    assert At(fs, (p, x).0) == Some((p, x).1);
  }

  lemma LastTwo(n: Names, fs: Fs, f: Node, g: Node) returns (end: Fs, back: Fs)
    requires Distinct(n) && WellFormed(fs) && Has(fs, Nodes2(n, f, g)) && f.File? && g.File?
    ensures var moves := [Move([n.a], [n.c])] + [Move([n.y], [n.a, n.b, n.z])];
            Undoes(fs, moves, end, back) && !Clean(fs, moves) && WellFormed(back) && Has(back, Undone2(n, f, g))
  {
    var m, rest := Move([n.a], [n.c]), [Move([n.y], [n.a, n.b, n.z])];
    Legal3(n, fs, f, g);
    var mid := LastMove(n, AfterMove(fs, m.source, m.target), f, g);
    UncleanCons(fs, m, rest);
    Command2(n, mid, f, g);
    end, back := End(AfterMove(fs, m.source, m.target), rest), Rename(mid, [n.c], [n.a, n.c]);
    FileAt(fs, Nodes2(n, f, g), [n.a], [n.a, n.b], f);
    UndoesCons(fs, m, rest, end, mid, back);
  }

  lemma LastThree(n: Names, fs: Fs, f: Node, g: Node) returns (end: Fs, back: Fs)
    requires Distinct(n) && WellFormed(fs) && Has(fs, Nodes1(n, f, g)) && f.File? && g.File?
    ensures Undoes(fs, Rest(n), end, back) && !Clean(fs, Rest(n)) && WellFormed(back) && Has(back, Undone1(n, f, g))
  {
    var m, rest := Move([n.e, n.c, n.b], [n.a, n.b]), [Move([n.a], [n.c])] + [Move([n.y], [n.a, n.b, n.z])];
    Legal2(n, fs, f, g);
    var mid;
    end, mid := LastTwo(n, AfterMove(fs, m.source, m.target), f, g);
    Command1(n, mid, f, g);
    back := Rename(mid, [n.a, n.b], [n.e, n.c, n.b]);
    FileAt(fs, Nodes1(n, f, g), m.source, m.source, f);
    UndoesCons(fs, m, rest, end, mid, back);
  }

  /** In a tree of this shape every move of the plan carries a file, the run is not clean,
      and yet the script completes and every path holds what it held at first. */
  lemma RestoredByAccident(n: Names, fs: Fs, f: Node, g: Node)
    requires Distinct(n) && WellFormed(fs) && Has(fs, Nodes0(n, f, g)) && f.File? && g.File?
    ensures Legal(fs, Plan(n)) && SourcesHoldFiles(fs, Plan(n)) && !Clean(fs, Plan(n))
    ensures var back := RunScript(End(fs, Plan(n)), RollbackLines(Plan(n)));
            back.Some? && forall p | p in fs :: At(back.value, p) == At(fs, p)
  {
    var m := Move([n.a], [n.e]);
    Legal1(n, fs, f, g);
    var end, mid := LastThree(n, AfterMove(fs, m.source, m.target), f, g);
    Command0(n, mid, f, g);
    FileAt(fs, Nodes0(n, f, g), [n.a], [n.a, n.c, n.b], f);
    var back := Mv(mid, m.target, m.source).value;
    UndoesCons(fs, m, Rest(n), end, mid, back);
    AllBack(fs, Nodes0(n, f, g), back);
  }

  lemma AllBack(fs: Fs, nodes: Nodes, back: Fs)
    requires Has(fs, nodes) && forall i | i in nodes :: At(back, i.0) == Some(i.1)
    ensures forall p | p in fs :: At(back, p) == At(fs, p)
  {
    forall p | p in fs ensures At(back, p) == At(fs, p) {
      assert (p, fs[p]) in nodes;
    }
  }
}
