/** A file tree with explicit directories: what creating directories, renaming and
    the shell's `mv` do to it. */
module FileTree {
  import opened Bytes

  type Path = seq<string>

  datatype Node = File(content: seq<byte>) | Dir

  type Fs = map<Path, Node>

  function At(fs: Fs, p: Path): Option<Node> {
    if p in fs then Some(fs[p]) else None
  }

  predicate IsDir(fs: Fs, p: Path) {
    p in fs && fs[p].Dir?
  }

  /** Everything proper above an existing path is a directory; the root exists. */
  predicate WellFormed(fs: Fs) {
    IsDir(fs, []) && forall p, k | p in fs && 0 <= k < |p| :: IsDir(fs, p[..k])
  }

  lemma SameLookups(a: Fs, b: Fs)
    requires forall p :: At(a, p) == At(b, p)
    ensures a == b
  {
    forall p ensures p in a <==> p in b {
      assert At(a, p) == At(b, p);
    }
    forall p | p in a ensures a[p] == b[p] {
      assert At(a, p) == At(b, p);
    }
  }

  // Creating directories.

  function WithDirs(fs: Fs, dirs: set<Path>): Fs {
    fs + map d | d in dirs && d !in fs :: Dir
  }

  /** The ancestors of `t` that do not exist yet. */
  function MissingAbove(fs: Fs, t: Path): set<Path> {
    set k | 0 <= k < |t| && t[..k] !in fs :: t[..k]
  }

  predicate DirsAbove(fs: Fs, t: Path) {
    forall k | 0 <= k < |t| :: IsDir(fs, t[..k])
  }

  lemma MakeParents(fs: Fs, t: Path)
    requires WellFormed(fs) && forall k | 0 <= k < |t| && t[..k] in fs :: fs[t[..k]].Dir?
    ensures var h := WithDirs(fs, MissingAbove(fs, t)); WellFormed(h) && DirsAbove(h, t)
  {
    var h := WithDirs(fs, MissingAbove(fs, t));
    forall p, k | p in h && 0 <= k < |p| ensures IsDir(h, p[..k]) {
      if p !in fs {
        var j :| 0 <= j < |t| && p == t[..j];
        assert p[..k] == t[..k];
      }
    }
  }

  // Renaming.

  /** Where `p` goes when the tree at `s` is moved to `t`. */
  function Relocate(s: Path, t: Path, p: Path): Path {
    if s <= p then t + p[|s|..] else p
  }

  function Rename(fs: Fs, s: Path, t: Path): Fs {
    (map p | p in fs && !(s <= p) :: fs[p])
    + (map q | q in (set p | p in fs && s <= p :: t + p[|s|..]) && t <= q && s + q[|t|..] in fs :: fs[s + q[|t|..]])
  }

  lemma RenameAt(fs: Fs, s: Path, t: Path, q: Path)
    ensures At(Rename(fs, s, t), q)
            == if t <= q && s + q[|t|..] in fs then At(fs, s + q[|t|..])
               else if s <= q then None
               else At(fs, q)
  {
    if t <= q && s + q[|t|..] in fs {
      var p := s + q[|t|..];
      assert q == t + p[|s|..];
      assert q in (set p | p in fs && s <= p :: t + p[|s|..]);
    }
  }

  /** `s` can be renamed to `t`: it exists, `t` does not, has its parents, and is not inside `s`. */
  predicate CanRename(fs: Fs, s: Path, t: Path) {
    WellFormed(fs) && s in fs && t !in fs && DirsAbove(fs, t) && !(s <= t)
  }

  lemma Comparable(s: Path, t: Path, q: Path)
    requires s <= q && t <= q
    ensures s <= t || t <= s
  {
    assert s == q[..|s|] && t == q[..|t|];
  }

  lemma NothingBelow(fs: Fs, t: Path, q: Path)
    requires WellFormed(fs) && t !in fs
    ensures t <= q ==> q !in fs
  {
    if t <= q {
      assert t == q[..|t|] && q == q[..|q|];
    }
  }

  /** Neither path is at or above the other, and nothing exists at or below the target. */
  lemma Apart(fs: Fs, s: Path, t: Path, q: Path)
    requires WellFormed(fs) && s in fs && t !in fs && !(s <= t)
    ensures !(t <= s) && (t <= q ==> q !in fs && !(s <= q))
  {
    NothingBelow(fs, t, s);
    NothingBelow(fs, t, q);
    if t <= q && s <= q {
      Comparable(s, t, q);
    }
  }

  lemma RenameKeepsWellFormed(fs: Fs, s: Path, t: Path)
    requires CanRename(fs, s, t)
    ensures WellFormed(Rename(fs, s, t))
  {
    var r := Rename(fs, s, t);
    RenameAt(fs, s, t, []);
    Apart(fs, s, t, []);
    assert [] <= s && (s == [] ==> s <= t) && (t == [] ==> t <= s);
    forall q, k | q in r && 0 <= k < |q| ensures IsDir(r, q[..k]) {
      RenamedParent(fs, s, t, q, k);
    }
  }

  lemma RenamedParent(fs: Fs, s: Path, t: Path, q: Path, k: nat)
    requires CanRename(fs, s, t) && q in Rename(fs, s, t) && k < |q|
    ensures IsDir(Rename(fs, s, t), q[..k])
  {
    var up := q[..k];
    RenameAt(fs, s, t, q);
    RenameAt(fs, s, t, up);
    Apart(fs, s, t, up);
    if t <= q && s + q[|t|..] in fs {
      if k >= |t| {
        var p := s + q[|t|..];
        assert t <= up && up[|t|..] == q[|t|..][..k - |t|];
        assert p[..|s| + (k - |t|)] == s + up[|t|..];
      } else {
        assert up == t[..k];
        assert s <= up ==> s <= t;
      }
    } else {
      assert s <= up ==> s <= q;
    }
  }

  // What renaming and back leaves, when empty directories have appeared in between.

  /** `s` can be moved to `t` once the missing parents of `t` are made. */
  predicate CanMove(fs: Fs, s: Path, t: Path) {
    && WellFormed(fs) && s in fs && t !in fs && !(s <= t)
    && forall k | 0 <= k < |t| && t[..k] in fs :: fs[t[..k]].Dir?
  }

  function AfterMove(fs: Fs, s: Path, t: Path): Fs {
    Rename(WithDirs(fs, MissingAbove(fs, t)), s, t)
  }

  lemma MissingIsAbove(fs: Fs, t: Path, q: Path)
    requires q in MissingAbove(fs, t)
    ensures q <= t && |q| < |t| && q !in fs
  {
  }

  lemma MissingOne(fs: Fs, t: Path, d: Path)
    requires WellFormed(fs) && |t| == 2 && t[..1] == d && d !in fs
    ensures MissingAbove(fs, t) == {d} && forall k | 0 <= k < |t| && t[..k] in fs :: fs[t[..k]].Dir?
  {
    assert t[..0] == [];
    assert d in MissingAbove(fs, t);
  }

  lemma MoveIsRename(fs: Fs, s: Path, t: Path)
    requires CanMove(fs, s, t)
    ensures CanRename(WithDirs(fs, MissingAbove(fs, t)), s, t)
    ensures WellFormed(AfterMove(fs, s, t))
  {
    MakeParents(fs, t);
    if t in MissingAbove(fs, t) {
      MissingIsAbove(fs, t, t);
    }
    RenameKeepsWellFormed(WithDirs(fs, MissingAbove(fs, t)), s, t);
  }

  lemma AfterMoveAt(fs: Fs, s: Path, t: Path, q: Path)
    requires CanMove(fs, s, t)
    ensures At(AfterMove(fs, s, t), q)
            == if t <= q then At(fs, s + q[|t|..])
               else if s <= q then None
               else if q in MissingAbove(fs, t) then Some(Dir)
               else At(fs, q)
  {
    var missing := MissingAbove(fs, t);
    RenameAt(WithDirs(fs, missing), s, t, q);
    Apart(fs, s, t, q);
    if t <= q {
      var p := s + q[|t|..];
      if p in missing {
        MissingIsAbove(fs, t, p);
      }
      if q in missing {
        MissingIsAbove(fs, t, q);
      }
    }
  }

  /** Directories `extra` that appeared after `s` was moved to `t`, in a tree that is still whole. */
  predicate Extras(fs: Fs, extra: set<Path>) {
    extra !! fs.Keys && WellFormed(WithDirs(fs, extra))
  }

  function PullBack(s: Path, t: Path, extra: set<Path>): set<Path> {
    set x | x in extra :: Relocate(t, s, x)
  }

  lemma PullBackBelow(s: Path, t: Path, extra: set<Path>, q: Path)
    requires !(s <= t) && !(t <= s)
    requires forall x | x in extra :: !(s <= x)
    ensures s <= q ==> (q in PullBack(s, t, extra) <==> t + q[|s|..] in extra)
    ensures !(s <= q) ==> (q in PullBack(s, t, extra) <==> q in extra && !(t <= q))
  {
    if s <= q {
      var x := t + q[|s|..];
      assert s + x[|t|..] == q;
      if q in PullBack(s, t, extra) {
        var y :| y in extra && Relocate(t, s, y) == q;
        assert t <= y;
        assert y[|t|..] == q[|s|..] && y == t + y[|t|..];
      }
    } else {
      if q in PullBack(s, t, extra) {
        var y :| y in extra && Relocate(t, s, y) == q;
        assert t <= y ==> s <= q;
      }
      if q in extra && !(t <= q) {
        assert Relocate(t, s, q) == q;
      }
    }
  }

  /** `extra` appeared after the move, and none of it is where the source was. */
  predicate SourceStaysFree(fs: Fs, s: Path, t: Path, extra: set<Path>) {
    CanMove(fs, s, t) && Extras(AfterMove(fs, s, t), extra) && s !in extra
  }

  lemma NothingAtSource(fs: Fs, s: Path, t: Path, extra: set<Path>, q: Path)
    requires SourceStaysFree(fs, s, t, extra)
    ensures !(t <= s) && s !in WithDirs(AfterMove(fs, s, t), extra)
    ensures s <= q ==> q !in AfterMove(fs, s, t) && q !in extra
  {
    Apart(fs, s, t, s);
    AfterMoveAt(fs, s, t, s);
    NothingBelow(WithDirs(AfterMove(fs, s, t), extra), s, q);
  }

  /** The way back is an ordinary rename. */
  lemma CanRenameBack(fs: Fs, s: Path, t: Path, extra: set<Path>)
    requires SourceStaysFree(fs, s, t, extra)
    ensures CanRename(WithDirs(AfterMove(fs, s, t), extra), t, s)
  {
    var g := WithDirs(AfterMove(fs, s, t), extra);
    NothingAtSource(fs, s, t, extra, s);
    AfterMoveAt(fs, s, t, t);
    assert s + t[|t|..] == s;
    forall k | 0 <= k < |s| ensures IsDir(g, s[..k]) {
      AfterMoveAt(fs, s, t, s[..k]);
      assert t <= s[..k] ==> t <= s;
    }
  }

  lemma RenameBackAt(fs: Fs, s: Path, t: Path, extra: set<Path>, q: Path)
    requires SourceStaysFree(fs, s, t, extra)
    ensures At(Rename(WithDirs(AfterMove(fs, s, t), extra), t, s), q)
            == At(WithDirs(fs, PullBack(s, t, extra) + MissingAbove(fs, t)), q)
  {
    var g := WithDirs(AfterMove(fs, s, t), extra);
    forall x | x in extra ensures !(s <= x) {
      NothingAtSource(fs, s, t, extra, x);
    }
    NothingAtSource(fs, s, t, extra, q);
    Apart(fs, s, t, q);
    RenameAt(g, t, s, q);
    PullBackBelow(s, t, extra, q);
    AfterMoveAt(fs, s, t, q);
    if s <= q {
      var p := t + q[|s|..];
      AfterMoveAt(fs, s, t, p);
      assert s + p[|t|..] == q;
      if q in MissingAbove(fs, t) {
        MissingIsAbove(fs, t, q);
      }
      if t <= q {
        Comparable(s, t, q);
      }
    } else if q in MissingAbove(fs, t) {
      MissingIsAbove(fs, t, q);
    }
  }

  /** Renaming back restores the tree, leaving behind the directories made for the target
      and those that appeared meanwhile, as they now lie. */
  lemma RenameBackRestores(fs: Fs, s: Path, t: Path, extra: set<Path>)
    requires SourceStaysFree(fs, s, t, extra)
    ensures var left := PullBack(s, t, extra) + MissingAbove(fs, t);
            Rename(WithDirs(AfterMove(fs, s, t), extra), t, s) == WithDirs(fs, left) && Extras(fs, left)
  {
    var g := WithDirs(AfterMove(fs, s, t), extra);
    var left := PullBack(s, t, extra) + MissingAbove(fs, t);
    forall q ensures At(Rename(g, t, s), q) == At(WithDirs(fs, left), q) {
      RenameBackAt(fs, s, t, extra, q);
    }
    SameLookups(Rename(g, t, s), WithDirs(fs, left));
    CanRenameBack(fs, s, t, extra);
    RenameKeepsWellFormed(g, t, s);
    forall q | q in left ensures q !in fs {
      LeftoverIsNew(fs, s, t, extra, q);
    }
  }

  lemma LeftoverIsNew(fs: Fs, s: Path, t: Path, extra: set<Path>, q: Path)
    requires SourceStaysFree(fs, s, t, extra) && q in PullBack(s, t, extra) + MissingAbove(fs, t)
    ensures q !in fs
  {
    if q in PullBack(s, t, extra) {
      var x :| x in extra && Relocate(t, s, x) == q;
      AfterMoveAt(fs, s, t, x);
      NothingAtSource(fs, s, t, extra, x);
      if t <= x {
        assert q == s + x[|t|..];
      }
    }
  }

  // The shell's `mv`, which moves into a destination that is a directory.

  predicate IsEmptyDir(fs: Fs, d: Path) {
    IsDir(fs, d) && forall p | p in fs && d <= p :: p == d
  }

  function MvTo(fs: Fs, from: Path, dest: Path): Option<Fs> {
    if from == [] || from !in fs || from <= dest || dest == [] || !IsDir(fs, dest[..|dest| - 1]) then None
    else if dest !in fs then Some(Rename(fs, from, dest))
    else if (fs[dest].File? && fs[from].File?) || (IsEmptyDir(fs, dest) && fs[from].Dir?)
    then Some(Rename(fs - {dest}, from, dest))
    else None
  }

  function Mv(fs: Fs, from: Path, to: Path): Option<Fs> {
    if IsDir(fs, to) && from != [] then MvTo(fs, from, to + [from[|from| - 1]]) else MvTo(fs, from, to)
  }

  /** The command renames its first argument to exactly its second. */
  predicate LandsExactly(fs: Fs, from: Path, to: Path) {
    to !in fs && Mv(fs, from, to) == Some(Rename(fs, from, to))
  }

  lemma RenamableLandsExactly(fs: Fs, from: Path, to: Path)
    requires CanRename(fs, from, to)
    ensures LandsExactly(fs, from, to)
  {
    Apart(fs, from, to, []);
    assert from == [] ==> from <= to;
    assert to == [] ==> to <= from;
  }

  lemma MovingInsideKeepsDir(fs: Fs, from: Path, to: Path, name: string)
    requires IsDir(fs, to) && !(from <= to)
    ensures MvTo(fs, from, to + [name]).Some? ==> IsDir(MvTo(fs, from, to + [name]).value, to)
  {
    var dest := to + [name];
    assert |to| < |dest|;
    RenameAt(fs, from, dest, to);
    RenameAt(fs - {dest}, from, dest, to);
  }

  /** What the command does: into a destination that is a directory, under the source's name; onto a
      free place or another file, by renaming; onto an empty directory only with a directory; and not
      at all from nothing, into itself, where there is no parent, or onto anything else. */
  lemma MvOutcomes(fs: Fs, from: Path, to: Path)
    requires WellFormed(fs) && from != [] && to != []
    ensures var dest := if to in fs && fs[to].Dir? then to + [from[|from| - 1]] else to;
            var r := Mv(fs, from, to);
            && (from !in fs || from <= dest || !(dest[..|dest| - 1] in fs && fs[dest[..|dest| - 1]].Dir?) ==> r.None?)
            && (from in fs && !(from <= dest) && dest[..|dest| - 1] in fs && fs[dest[..|dest| - 1]].Dir? ==>
                  && (dest !in fs ==> r == Some(Rename(fs, from, dest)))
                  && (dest in fs && fs[dest].File? && fs[from].File? ==> r == Some(Rename(fs - {dest}, from, dest)))
                  && (dest in fs && fs[dest].File? && fs[from].Dir? ==> r.None?)
                  && (dest in fs && fs[dest].Dir? && fs[from].File? ==> r.None?)
                  && (dest in fs && fs[dest].Dir? && (exists p | p in fs :: dest <= p && |p| > |dest|) ==> r.None?)
                  && (dest in fs && fs[dest].Dir? && fs[from].Dir? && (forall p | p in fs && dest <= p :: |p| <= |dest|) ==>
                        r == Some(Rename(fs - {dest}, from, dest))))
  {
    var dest := if to in fs && fs[to].Dir? then to + [from[|from| - 1]] else to;
    assert forall p | dest <= p && |p| <= |dest| :: p == dest;
  }
}
