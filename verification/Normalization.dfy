/** The normalization executor: it applies a plan of moves, never onto an existing
    target, and writes a script of `mv` commands that is meant to undo them. */
module Normalization {
  import opened Bytes
  import opened FileTree

  datatype Move = Move(source: Path, target: Path)

  datatype Status = Moved | SourceMissing | TargetExists | Raised

  predicate FileAbove(fs: Fs, t: Path) {
    exists k | 0 <= k < |t| :: t[..k] in fs && fs[t[..k]].File?
  }

  /** A source that is missing is skipped and a target that exists blocks the move; making
      the target's parents fails on a file, and moving a tree into itself fails too. */
  function MovePath(fs: Fs, m: Move): (Status, Fs) {
    if m.source !in fs then (SourceMissing, fs)
    else if m.target in fs then (TargetExists, fs)
    else if FileAbove(fs, m.target) then (Raised, fs)
    else if m.source <= m.target then (Raised, WithDirs(fs, MissingAbove(fs, m.target)))
    else (Moved, AfterMove(fs, m.source, m.target))
  }

  /** The tree and the result lists as the action loop goes. */
  datatype Progress = Progress(completed: bool, fs: Fs, applied: seq<Move>, blocked: seq<Move>, skipped: seq<Move>)

  function ApplyOne(o: Progress, m: Move): Progress {
    var (status, fs) := MovePath(o.fs, m);
    match status
    case Moved => o.(fs := fs, applied := o.applied + [m])
    case TargetExists => o.(blocked := o.blocked + [m])
    case SourceMissing => o.(skipped := o.skipped + [m])
    case Raised => o.(fs := fs, completed := false)
  }

  function ApplyFrom(o: Progress, plan: seq<Move>): Progress
    decreases |plan|
  {
    if plan == [] || !o.completed then o else ApplyFrom(ApplyOne(o, plan[0]), plan[1..])
  }

  function Apply(fs: Fs, plan: seq<Move>): Progress {
    ApplyFrom(Progress(true, fs, [], [], []), plan)
  }

  function RollbackLines(applied: seq<Move>): seq<Move> {
    if applied == [] then [] else RollbackLines(applied[1..]) + [applied[0]]
  }

  /** Run the script, stopping at the first command that fails. */
  function RunScript(fs: Fs, lines: seq<Move>): Option<Fs>
    decreases |lines|
  {
    if lines == [] then Some(fs)
    else
      var next := Mv(fs, lines[0].target, lines[0].source);
      if next.None? then None else RunScript(next.value, lines[1..])
  }

  // The executor as it runs.

  class Workspace {
    var fs: Fs

    constructor (fs: Fs)
      ensures this.fs == fs
    {
      this.fs := fs;
    }

    method MoveOne(m: Move) returns (status: Status)
      modifies this
      ensures (status, fs) == MovePath(old(fs), m)
    {
      if m.source !in fs {
        return SourceMissing;
      }
      if m.target in fs {
        return TargetExists;
      }
      for k := 0 to |m.target|
        invariant fs == old(fs)
        invariant forall j | 0 <= j < k :: m.target[..j] in fs ==> fs[m.target[..j]].Dir?
      {
        if m.target[..k] in fs && fs[m.target[..k]].File? {
          return Raised;
        }
      }
      fs := WithDirs(fs, MissingAbove(fs, m.target));
      if m.source <= m.target {
        return Raised;
      }
      fs := Rename(fs, m.source, m.target);
      status := Moved;
    }

    method ApplyPlan(plan: seq<Move>) returns (completed: bool, applied: seq<Move>, blocked: seq<Move>, skipped: seq<Move>)
      modifies this
      ensures Progress(completed, fs, applied, blocked, skipped) == Apply(old(fs), plan)
    {
      completed, applied, blocked, skipped := true, [], [], [];
      for i := 0 to |plan|
        invariant completed
        invariant Apply(old(fs), plan) == ApplyFrom(Progress(true, fs, applied, blocked, skipped), plan[i..])
      {
        assert plan[i..][0] == plan[i] && plan[i..][1..] == plan[i + 1..];
        var status := MoveOne(plan[i]);
        match status {
          case Moved => applied := applied + [plan[i]];
          case TargetExists => blocked := blocked + [plan[i]];
          case SourceMissing => skipped := skipped + [plan[i]];
          case Raised =>
            completed := false;
            return;
        }
      }
    }
  }

  method WriteRollback(applied: seq<Move>) returns (lines: seq<Move>)
    ensures lines == RollbackLines(applied)
  {
    lines := [];
    var i := |applied|;
    assert applied[..i] == applied;
    while i > 0
      invariant 0 <= i <= |applied| && lines + RollbackLines(applied[..i]) == RollbackLines(applied)
    {
      i := i - 1;
      RollbackSnoc(applied[..i], applied[i]);
      assert applied[..i + 1] == applied[..i] + [applied[i]];
      assert lines + ([applied[i]] + RollbackLines(applied[..i])) == lines + [applied[i]] + RollbackLines(applied[..i]);
      lines := lines + [applied[i]];
    }
  }

  lemma {:induction false} RollbackSnoc(moves: seq<Move>, m: Move)
    ensures RollbackLines(moves + [m]) == [m] + RollbackLines(moves)
  {
    if moves != [] {
      RollbackSnoc(moves[1..], m);
      assert (moves + [m])[1..] == moves[1..] + [m];
    }
  }

  // The moves that happened.

  /** Each move succeeds in the tree the ones before it leave. */
  predicate Legal(fs: Fs, moves: seq<Move>)
    decreases |moves|
  {
    moves == [] || (CanMove(fs, moves[0].source, moves[0].target) && Legal(AfterMove(fs, moves[0].source, moves[0].target), moves[1..]))
  }

  function End(fs: Fs, moves: seq<Move>): Fs
    decreases |moves|
  {
    if moves == [] then fs else End(AfterMove(fs, moves[0].source, moves[0].target), moves[1..])
  }

  lemma MovedMeansCanMove(fs: Fs, m: Move)
    requires WellFormed(fs)
    ensures MovePath(fs, m).0 == Moved <==> CanMove(fs, m.source, m.target)
    ensures MovePath(fs, m).0 == Moved ==> MovePath(fs, m).1 == AfterMove(fs, m.source, m.target) && WellFormed(MovePath(fs, m).1)
    ensures MovePath(fs, m).0 in {SourceMissing, TargetExists} ==> MovePath(fs, m).1 == fs
  {
    if CanMove(fs, m.source, m.target) {
      MoveIsRename(fs, m.source, m.target);
    }
  }

  /** The moves of the plan that go through. */
  function Performed(fs: Fs, plan: seq<Move>): seq<Move>
    decreases |plan|
  {
    if plan == [] then []
    else
      var (status, next) := MovePath(fs, plan[0]);
      (if status == Moved then [plan[0]] else []) + Performed(next, plan[1..])
  }

  lemma PerformedSkips(fs: Fs, plan: seq<Move>)
    requires plan != []
    ensures var (status, next) := MovePath(fs, plan[0]);
            Performed(fs, plan) == if status == Moved then [plan[0]] + Performed(next, plan[1..]) else Performed(next, plan[1..])
  {
  }

  lemma {:induction false} AppliedIsPerformed(o: Progress, plan: seq<Move>)
    requires o.completed && ApplyFrom(o, plan).completed
    ensures ApplyFrom(o, plan).applied == o.applied + Performed(o.fs, plan)
    decreases |plan|
  {
    if plan != [] {
      var next := ApplyOne(o, plan[0]);
      AppliedIsPerformed(next, plan[1..]);
      PerformedSkips(o.fs, plan);
    }
  }

  lemma LegalCons(fs: Fs, m: Move, rest: seq<Move>)
    requires CanMove(fs, m.source, m.target) && Legal(AfterMove(fs, m.source, m.target), rest)
    ensures Legal(fs, [m] + rest) && End(fs, [m] + rest) == End(AfterMove(fs, m.source, m.target), rest)
  {
    assert ([m] + rest)[1..] == rest;
  }

  /** A run that completes did exactly the moves it lists, one after another. */
  lemma {:induction false} PerformedMovesHappened(o: Progress, plan: seq<Move>)
    requires WellFormed(o.fs) && o.completed && ApplyFrom(o, plan).completed
    ensures Legal(o.fs, Performed(o.fs, plan)) && End(o.fs, Performed(o.fs, plan)) == ApplyFrom(o, plan).fs
    decreases |plan|
  {
    if plan != [] {
      var next := ApplyOne(o, plan[0]);
      MovedMeansCanMove(o.fs, plan[0]);
      PerformedMovesHappened(next, plan[1..]);
      PerformedSkips(o.fs, plan);
      if MovePath(o.fs, plan[0]).0 == Moved {
        LegalCons(o.fs, plan[0], Performed(next.fs, plan[1..]));
      }
    }
  }

  // What becomes of each move of the plan.

  /** A missing source is skipped and an existing target blocks; the move happens when neither is the
      case, every existing ancestor of the target is a directory, and the target is not inside the source. */
  lemma StatusIff(fs: Fs, m: Move)
    ensures var (status, after) := MovePath(fs, m);
            && (status == SourceMissing <==> m.source !in fs)
            && (status == TargetExists <==> m.source in fs && m.target in fs)
            && (status == Moved <==> m.source in fs && m.target !in fs && !(m.source <= m.target)
                                     && forall k | 0 <= k < |m.target| && m.target[..k] in fs :: fs[m.target[..k]].Dir?)
            && (status == SourceMissing || status == TargetExists ==> after == fs)
  {
  }

  lemma {:induction false} ApplySnoc(o: Progress, plan: seq<Move>, m: Move)
    ensures var r := ApplyFrom(o, plan); ApplyFrom(o, plan + [m]) == if r.completed then ApplyOne(r, m) else r
    decreases |plan|
  {
    if plan == [] {
      assert (plan + [m])[1..] == [] && (plan + [m])[0] == m;
    } else if o.completed {
      ApplySnoc(ApplyOne(o, plan[0]), plan[1..], m);
      assert (plan + [m])[1..] == plan[1..] + [m];
    }
  }

  /** The tree that move `i` of the plan finds. */
  function TreeBefore(fs: Fs, plan: seq<Move>, i: nat): Fs
    requires i <= |plan|
  {
    End(fs, Performed(fs, plan[..i]))
  }

  /** Each move reached is blocked exactly when its source and its target exist in the tree it finds,
      skipped exactly when its source does not, and applied exactly when it can be made there; the
      run goes on in just these cases. */
  lemma EachMoveIsListed(fs: Fs, plan: seq<Move>, i: nat)
    requires WellFormed(fs) && i < |plan| && Apply(fs, plan[..i]).completed
    ensures var t, m := TreeBefore(fs, plan, i), plan[i];
            var r, r' := Apply(fs, plan[..i]), Apply(fs, plan[..i + 1]);
            && r.fs == t
            && r'.blocked == r.blocked + (if m.source in t && m.target in t then [m] else [])
            && r'.skipped == r.skipped + (if m.source !in t then [m] else [])
            && r'.applied == r.applied + (if CanMove(t, m.source, m.target) then [m] else [])
            && (r'.completed <==> m.source !in t || m.target in t || CanMove(t, m.source, m.target))
  {
    var o := Progress(true, fs, [], [], []);
    PerformedMovesHappened(o, plan[..i]);
    ApplySnoc(o, plan[..i], plan[i]);
    assert plan[..i + 1] == plan[..i] + [plan[i]];
    AllWellFormed(fs, Performed(fs, plan[..i]));
    OneMoveIsListed(Apply(fs, plan[..i]), plan[i]);
  }

  lemma OneMoveIsListed(o: Progress, m: Move)
    requires WellFormed(o.fs) && o.completed
    ensures var r := ApplyOne(o, m);
            && r.blocked == o.blocked + (if m.source in o.fs && m.target in o.fs then [m] else [])
            && r.skipped == o.skipped + (if m.source !in o.fs then [m] else [])
            && r.applied == o.applied + (if CanMove(o.fs, m.source, m.target) then [m] else [])
            && (r.completed <==> m.source !in o.fs || m.target in o.fs || CanMove(o.fs, m.source, m.target))
  {
    MovedMeansCanMove(o.fs, m);
    StatusIff(o.fs, m);
  }

  lemma {:induction false} AllWellFormed(fs: Fs, moves: seq<Move>)
    requires WellFormed(fs) && Legal(fs, moves)
    ensures WellFormed(End(fs, moves))
    decreases |moves|
  {
    if moves != [] {
      MoveIsRename(fs, moves[0].source, moves[0].target);
      AllWellFormed(AfterMove(fs, moves[0].source, moves[0].target), moves[1..]);
    }
  }

  /** The moves of the plan marked `kind`, in order. */
  function Select(plan: seq<Move>, marks: seq<Status>, kind: Status): seq<Move>
    requires |marks| == |plan|
  {
    if plan == [] then []
    else
      var n := |plan| - 1;
      Select(plan[..n], marks[..n], kind) + if marks[n] == kind then [plan[n]] else []
  }

  lemma SelectSnoc(plan: seq<Move>, marks: seq<Status>, m: Move, mark: Status, kind: Status)
    requires |marks| == |plan|
    ensures Select(plan + [m], marks + [mark], kind) == Select(plan, marks, kind) + if mark == kind then [m] else []
  {
    assert (plan + [m])[..|plan|] == plan && (marks + [mark])[..|plan|] == marks;
  }

  /** On a completed run every move of the plan is in exactly one of the three lists, and each list
      is in the order of the plan. */
  lemma {:induction false} ListsMakeUpThePlan(fs: Fs, plan: seq<Move>) returns (marks: seq<Status>)
    requires WellFormed(fs) && Apply(fs, plan).completed
    ensures |marks| == |plan| && Raised !in marks
    ensures var r := Apply(fs, plan);
            && r.applied == Select(plan, marks, Moved)
            && r.blocked == Select(plan, marks, TargetExists)
            && r.skipped == Select(plan, marks, SourceMissing)
    decreases |plan|
  {
    marks := [];
    if plan != [] {
      var n := |plan| - 1;
      var o, m := Progress(true, fs, [], [], []), plan[n];
      ApplySnoc(o, plan[..n], m);
      assert plan == plan[..n] + [m];
      marks := ListsMakeUpThePlan(fs, plan[..n]);
      var mark := MovePath(Apply(fs, plan[..n]).fs, m).0;
      SelectSnoc(plan[..n], marks, m, mark, Moved);
      SelectSnoc(plan[..n], marks, m, mark, TargetExists);
      SelectSnoc(plan[..n], marks, m, mark, SourceMissing);
      marks := marks + [mark];
    }
  }

  /** The script undoes the last move first. */
  lemma {:induction false} RollbackAt(moves: seq<Move>, i: nat)
    ensures |RollbackLines(moves)| == |moves|
    ensures i < |moves| ==> RollbackLines(moves)[i] == moves[|moves| - 1 - i]
  {
    if moves != [] {
      RollbackAt(moves[1..], i);
    }
  }

  // No move overwrites or loses anything.

  function Where(moves: seq<Move>, p: Path): Path
    decreases |moves|
  {
    if moves == [] then p else Where(moves[1..], Relocate(moves[0].source, moves[0].target, p))
  }

  lemma MoveKeepsNodes(fs: Fs, s: Path, t: Path, p: Path, q: Path)
    requires CanMove(fs, s, t) && p in fs
    ensures At(AfterMove(fs, s, t), Relocate(s, t, p)) == At(fs, p)
    ensures q in fs && q != p ==> Relocate(s, t, q) != Relocate(s, t, p)
  {
    AfterMoveAt(fs, s, t, Relocate(s, t, p));
    Apart(fs, s, t, p);
    Apart(fs, s, t, q);
    if s <= p {
      assert s + p[|s|..] == p;
    }
    if s <= q {
      assert s + q[|s|..] == q;
    }
    if p in MissingAbove(fs, t) {
      MissingIsAbove(fs, t, p);
    }
  }

  /** Every node present before a run is present after it, with its content, at the path the
      moves carry it to, and no two end up at one path. */
  lemma {:induction false} NothingIsLost(fs: Fs, moves: seq<Move>, p: Path, q: Path)
    requires WellFormed(fs) && Legal(fs, moves) && p in fs
    ensures At(End(fs, moves), Where(moves, p)) == At(fs, p)
    ensures q in fs && q != p ==> Where(moves, q) != Where(moves, p)
    decreases |moves|
  {
    if moves != [] {
      var s, t := moves[0].source, moves[0].target;
      MoveIsRename(fs, s, t);
      MoveKeepsNodes(fs, s, t, p, q);
      if q in fs {
        MoveKeepsNodes(fs, s, t, q, p);
      }
      NothingIsLost(AfterMove(fs, s, t), moves[1..], Relocate(s, t, p), Relocate(s, t, q));
    }
  }

  /** And no file appears from nowhere: whatever holds a file afterwards held it before. */
  lemma {:induction false} NothingIsInvented(fs: Fs, moves: seq<Move>, q: Path) returns (p: Path)
    requires WellFormed(fs) && Legal(fs, moves) && q in End(fs, moves) && End(fs, moves)[q].File?
    ensures p in fs && Where(moves, p) == q && fs[p] == End(fs, moves)[q]
    decreases |moves|
  {
    p := q;
    if moves != [] {
      var s, t := moves[0].source, moves[0].target;
      MoveIsRename(fs, s, t);
      var mid := NothingIsInvented(AfterMove(fs, s, t), moves[1..], q);
      AfterMoveAt(fs, s, t, mid);
      p := if t <= mid then s + mid[|t|..] else mid;
      assert t <= mid ==> t + p[|s|..] == mid;
    }
  }

  // What the rollback script does.

  /** The directories a complete rollback leaves behind, as they lie in the original tree:
      those made for each target, carried back through the moves before it. */
  function Residue(fs: Fs, moves: seq<Move>): set<Path>
    decreases |moves|
  {
    if moves == [] then {}
    else
      var s, t := moves[0].source, moves[0].target;
      PullBack(s, t, Residue(AfterMove(fs, s, t), moves[1..])) + MissingAbove(fs, t)
  }

  /** No move's source is occupied, when its turn to be undone comes, by a directory that
      a later move made for its own target. */
  predicate Clean(fs: Fs, moves: seq<Move>)
    decreases |moves|
  {
    moves == []
    || (var s, t := moves[0].source, moves[0].target;
        s !in Residue(AfterMove(fs, s, t), moves[1..]) && Clean(AfterMove(fs, s, t), moves[1..]))
  }

  predicate AllLandExactly(fs: Fs, lines: seq<Move>)
    decreases |lines|
  {
    lines == []
    || (LandsExactly(fs, lines[0].target, lines[0].source)
        && AllLandExactly(Rename(fs, lines[0].target, lines[0].source), lines[1..]))
  }

  lemma {:induction false} ScriptSnoc(fs: Fs, lines: seq<Move>, last: Move, mid: Fs)
    requires RunScript(fs, lines) == Some(mid)
    ensures RunScript(fs, lines + [last]) == Mv(mid, last.target, last.source)
    ensures AllLandExactly(fs, lines) ==> (AllLandExactly(fs, lines + [last]) <==> LandsExactly(mid, last.target, last.source))
    decreases |lines|
  {
    if lines == [] {
      assert lines + [last] == [last] && [last][1..] == [];
    } else {
      assert (lines + [last])[1..] == lines[1..] + [last];
      ScriptSnoc(Mv(fs, lines[0].target, lines[0].source).value, lines[1..], last, mid);
    }
  }

  lemma {:induction false} ExactPrefix(fs: Fs, lines: seq<Move>, last: Move)
    requires AllLandExactly(fs, lines + [last])
    ensures AllLandExactly(fs, lines)
    decreases |lines|
  {
    if lines != [] {
      assert (lines + [last])[1..] == lines[1..] + [last];
      ExactPrefix(Rename(fs, lines[0].target, lines[0].source), lines[1..], last);
    }
  }

  /** If the moves are clean, the script runs to the end, every command lands exactly where
      the move started, and the tree is the original one plus the residue. */
  lemma {:induction false} CleanRollbackRestores(fs: Fs, moves: seq<Move>)
    requires WellFormed(fs) && Legal(fs, moves) && Clean(fs, moves)
    ensures AllLandExactly(End(fs, moves), RollbackLines(moves))
    ensures RunScript(End(fs, moves), RollbackLines(moves)) == Some(WithDirs(fs, Residue(fs, moves)))
    ensures Extras(fs, Residue(fs, moves))
    decreases |moves|
  {
    if moves == [] {
      assert WithDirs(fs, {}) == fs;
    } else {
      var s, t := moves[0].source, moves[0].target;
      var next := AfterMove(fs, s, t);
      MoveIsRename(fs, s, t);
      CleanRollbackRestores(next, moves[1..]);
      var extra := Residue(next, moves[1..]);
      ScriptSnoc(End(fs, moves), RollbackLines(moves[1..]), moves[0], WithDirs(next, extra));
      CanRenameBack(fs, s, t, extra);
      RenamableLandsExactly(WithDirs(next, extra), t, s);
      RenameBackRestores(fs, s, t, extra);
    }
  }

  /** Exactly the clean runs roll back with every command landing where the move started. */
  lemma {:induction false} ExactIffClean(fs: Fs, moves: seq<Move>)
    requires WellFormed(fs) && Legal(fs, moves)
    ensures AllLandExactly(End(fs, moves), RollbackLines(moves)) <==> Clean(fs, moves)
    decreases |moves|
  {
    if moves != [] {
      var s, t := moves[0].source, moves[0].target;
      var next := AfterMove(fs, s, t);
      MoveIsRename(fs, s, t);
      ExactIffClean(next, moves[1..]);
      if Clean(fs, moves) {
        CleanRollbackRestores(fs, moves);
      } else if Clean(next, moves[1..]) {
        CleanRollbackRestores(next, moves[1..]);
        ScriptSnoc(End(fs, moves), RollbackLines(moves[1..]), moves[0], WithDirs(next, Residue(next, moves[1..])));
      } else if AllLandExactly(End(fs, moves), RollbackLines(moves)) {
        ExactPrefix(End(fs, moves), RollbackLines(moves[1..]), moves[0]);
      }
    }
  }

  /** A run that never has to make a directory is clean. */
  lemma {:induction false} NoNewDirectoriesIsClean(fs: Fs, moves: seq<Move>)
    requires WellFormed(fs) && Legal(fs, moves) && MakesNoDirectory(fs, moves)
    ensures Residue(fs, moves) == {} && Clean(fs, moves)
    decreases |moves|
  {
    if moves != [] {
      MoveIsRename(fs, moves[0].source, moves[0].target);
      NoNewDirectoriesIsClean(AfterMove(fs, moves[0].source, moves[0].target), moves[1..]);
    }
  }

  predicate MakesNoDirectory(fs: Fs, moves: seq<Move>)
    decreases |moves|
  {
    moves == []
    || (MissingAbove(fs, moves[0].target) == {} && MakesNoDirectory(AfterMove(fs, moves[0].source, moves[0].target), moves[1..]))
  }

  /** When a later move made a directory where an earlier source was, the command that
      should restore it moves the tree inside that directory instead. */
  lemma OccupiedSourceMisplaces(fs: Fs, m: Move, rest: seq<Move>)
    requires WellFormed(fs) && Legal(fs, [m] + rest) && Clean(AfterMove(fs, m.source, m.target), rest) && !Clean(fs, [m] + rest)
    ensures var next := AfterMove(fs, m.source, m.target);
            var before := WithDirs(next, Residue(next, rest));
            && RunScript(End(next, rest), RollbackLines(rest)) == Some(before)
            && IsDir(before, m.source) && m.target != []
            && Mv(before, m.target, m.source) == MvTo(before, m.target, m.source + [m.target[|m.target| - 1]])
  {
    assert ([m] + rest)[1..] == rest;
    MoveIsRename(fs, m.source, m.target);
    CleanRollbackRestores(AfterMove(fs, m.source, m.target), rest);
    assert m.target == [] ==> m.target in fs;
  }

  lemma OccupiedScript(fs: Fs, m: Move, rest: seq<Move>)
    requires WellFormed(fs) && Legal(fs, [m] + rest) && Clean(AfterMove(fs, m.source, m.target), rest) && !Clean(fs, [m] + rest)
    ensures var next := AfterMove(fs, m.source, m.target);
            m.target != [] && RunScript(End(fs, [m] + rest), RollbackLines([m] + rest))
                              == MvTo(WithDirs(next, Residue(next, rest)), m.target, m.source + [m.target[|m.target| - 1]])
  {
    var next := AfterMove(fs, m.source, m.target);
    OccupiedSourceMisplaces(fs, m, rest);
    assert ([m] + rest)[1..] == rest;
    ScriptSnoc(End(next, rest), RollbackLines(rest), m, WithDirs(next, Residue(next, rest)));
  }

  /** So a file that was the source of the first move is then not restored by the script:
      its path is left holding a directory, or the script stops with an error. */
  lemma OccupiedFileIsNotRestored(fs: Fs, m: Move, rest: seq<Move>)
    requires WellFormed(fs) && Legal(fs, [m] + rest) && Clean(AfterMove(fs, m.source, m.target), rest) && !Clean(fs, [m] + rest)
    requires fs[m.source].File?
    ensures var back := RunScript(End(fs, [m] + rest), RollbackLines([m] + rest)); back.Some? ==> IsDir(back.value, m.source)
  {
    var next := AfterMove(fs, m.source, m.target);
    OccupiedScript(fs, m, rest);
    OccupiedSourceMisplaces(fs, m, rest);
    Apart(fs, m.source, m.target, m.source);
    MovingInsideKeepsDir(WithDirs(next, Residue(next, rest)), m.target, m.source, m.target[|m.target| - 1]);
  }

  predicate HoldsFile(fs: Fs, s: Path) {
    exists p | p in fs :: s <= p && fs[p].File?
  }

  /** A file at or below `s`, with none nearer to `s`. */
  predicate Nearest(fs: Fs, s: Path, p: Path) {
    p in fs && fs[p].File? && s <= p && forall q | q in fs && fs[q].File? && s <= q :: |p| <= |q|
  }

  lemma {:induction false} NearestFile(fs: Fs, s: Path, p: Path) returns (q: Path)
    requires p in fs && fs[p].File? && s <= p
    ensures Nearest(fs, s, q)
    decreases |p|
  {
    q := p;
    if r :| r in fs && fs[r].File? && s <= r && |r| < |p| {
      q := NearestFile(fs, s, r);
    }
  }

  /** In a tree whose files are those after the move, moving `t` to `s/name` does not bring
      back the nearest file that came from `s`. */
  lemma MovedInsideIsMisplaced(fs: Fs, s: Path, t: Path, g: Fs, name: string, p: Path)
    requires CanMove(fs, s, t) && Nearest(fs, s, p)
    requires forall q | q in g && g[q].File? :: At(AfterMove(fs, s, t), q) == At(g, q)
    ensures At(Rename(g, t, s + [name]), p) != At(fs, p)
  {
    var dest := s + [name];
    RenameAt(g, t, dest, p);
    Apart(fs, s, t, p);
    AfterMoveAt(fs, s, t, p);
    if dest <= p {
      var from := t + p[|dest|..];
      AfterMoveAt(fs, s, t, from);
      assert s + from[|t|..] == s + p[|dest|..];
      assert |s + p[|dest|..]| < |p|;
    }
  }

  lemma MvInsideMisplaces(fs: Fs, s: Path, t: Path, g: Fs, name: string, p: Path)
    requires CanMove(fs, s, t) && Nearest(fs, s, p)
    requires forall q | q in g && g[q].File? :: At(AfterMove(fs, s, t), q) == At(g, q)
    ensures MvTo(g, t, s + [name]).Some? ==> At(MvTo(g, t, s + [name]).value, p) != At(fs, p)
  {
    MovedInsideIsMisplaced(fs, s, t, g, name, p);
    MovedInsideIsMisplaced(fs, s, t, g - {s + [name]}, name, p);
  }

  /** Whatever the source of the first move is, the file in it nearest to its root is then not
      restored by the script, or the script stops with an error. */
  lemma OccupiedSourceLosesAFile(fs: Fs, m: Move, rest: seq<Move>, p: Path)
    requires WellFormed(fs) && Legal(fs, [m] + rest) && Clean(AfterMove(fs, m.source, m.target), rest) && !Clean(fs, [m] + rest)
    requires Nearest(fs, m.source, p)
    ensures var back := RunScript(End(fs, [m] + rest), RollbackLines([m] + rest)); back.Some? ==> At(back.value, p) != At(fs, p)
  {
    var next := AfterMove(fs, m.source, m.target);
    OccupiedScript(fs, m, rest);
    MvInsideMisplaces(fs, m.source, m.target, WithDirs(next, Residue(next, rest)), m.target[|m.target| - 1], p);
  }

  /** Undoing the moves completes and every file is back at its path with its content. */
  predicate RestoresFiles(fs: Fs, moves: seq<Move>) {
    var back := RunScript(End(fs, moves), RollbackLines(moves));
    back.Some? && forall p | p in fs && fs[p].File? :: At(back.value, p) == At(fs, p)
  }

  /** Undoing only the moves from any point on restores the files as they were at that point. */
  predicate RestoresFromEveryPoint(fs: Fs, moves: seq<Move>) {
    forall k | 0 <= k <= |moves| :: RestoresFiles(End(fs, moves[..k]), moves[k..])
  }

  predicate SourcesHoldFiles(fs: Fs, moves: seq<Move>)
    decreases |moves|
  {
    moves == []
    || (HoldsFile(fs, moves[0].source) && SourcesHoldFiles(AfterMove(fs, moves[0].source, moves[0].target), moves[1..]))
  }

  lemma EveryPointStep(fs: Fs, moves: seq<Move>)
    requires moves != []
    ensures RestoresFromEveryPoint(fs, moves)
            <==> RestoresFiles(fs, moves) && RestoresFromEveryPoint(AfterMove(fs, moves[0].source, moves[0].target), moves[1..])
  {
    var next := AfterMove(fs, moves[0].source, moves[0].target);
    assert moves[..0] == [] && moves[0..] == moves;
    forall k | 0 <= k <= |moves[1..]|
      ensures End(fs, moves[..k + 1]) == End(next, moves[1..][..k]) && moves[k + 1..] == moves[1..][k..]
    {
      assert moves[..k + 1][1..] == moves[1..][..k];
    }
    if RestoresFromEveryPoint(fs, moves) {
      assert RestoresFiles(End(fs, moves[..0]), moves[0..]);
      forall k | 0 <= k <= |moves[1..]| ensures RestoresFiles(End(next, moves[1..][..k]), moves[1..][k..]) {
        assert RestoresFiles(End(fs, moves[..k + 1]), moves[k + 1..]);
      }
    }
    if RestoresFiles(fs, moves) && RestoresFromEveryPoint(next, moves[1..]) {
      forall k | 0 <= k <= |moves| ensures RestoresFiles(End(fs, moves[..k]), moves[k..]) {
        if k > 0 {
          assert RestoresFiles(End(next, moves[1..][..k - 1]), moves[1..][k - 1..]);
        }
      }
    }
  }

  /** The same, point after point. */
  predicate RestoresDown(fs: Fs, moves: seq<Move>)
    decreases |moves|
  {
    RestoresFiles(fs, moves) && (moves == [] || RestoresDown(AfterMove(fs, moves[0].source, moves[0].target), moves[1..]))
  }

  lemma {:induction false} DownIsEveryPoint(fs: Fs, moves: seq<Move>)
    ensures RestoresDown(fs, moves) <==> RestoresFromEveryPoint(fs, moves)
    decreases |moves|
  {
    if moves == [] {
      assert moves[..0] == moves[0..] == [];
    } else {
      DownIsEveryPoint(AfterMove(fs, moves[0].source, moves[0].target), moves[1..]);
      EveryPointStep(fs, moves);
    }
  }

  lemma CleanRestoresFiles(fs: Fs, moves: seq<Move>)
    requires WellFormed(fs) && Legal(fs, moves) && Clean(fs, moves)
    ensures RestoresFiles(fs, moves)
  {
    CleanRollbackRestores(fs, moves);
  }

  lemma {:induction false} CleanRestoresDown(fs: Fs, moves: seq<Move>)
    requires WellFormed(fs) && Legal(fs, moves) && Clean(fs, moves)
    ensures RestoresDown(fs, moves)
    decreases |moves|
  {
    CleanRestoresFiles(fs, moves);
    if moves != [] {
      MoveIsRename(fs, moves[0].source, moves[0].target);
      CleanRestoresDown(AfterMove(fs, moves[0].source, moves[0].target), moves[1..]);
    }
  }

  /** A clean run is restored from every point. */
  lemma CleanRestoresFromEveryPoint(fs: Fs, moves: seq<Move>)
    requires WellFormed(fs) && Legal(fs, moves) && Clean(fs, moves)
    ensures RestoresFromEveryPoint(fs, moves)
  {
    CleanRestoresDown(fs, moves);
    DownIsEveryPoint(fs, moves);
  }

  lemma {:induction false} UncleanIsNotRestored(fs: Fs, moves: seq<Move>)
    requires WellFormed(fs) && Legal(fs, moves) && SourcesHoldFiles(fs, moves) && !Clean(fs, moves)
    ensures !RestoresDown(fs, moves)
    decreases |moves|
  {
    var next := AfterMove(fs, moves[0].source, moves[0].target);
    MoveIsRename(fs, moves[0].source, moves[0].target);
    if Clean(next, moves[1..]) {
      OccupiedIsNotRestored(fs, moves, moves[0], moves[1..]);
    } else {
      UncleanIsNotRestored(next, moves[1..]);
    }
  }

  /** When every tree moved holds a file, the runs whose rollback restores the files from
      every point are exactly the clean ones. */
  lemma RestoresFilesIffClean(fs: Fs, moves: seq<Move>)
    requires WellFormed(fs) && Legal(fs, moves) && SourcesHoldFiles(fs, moves)
    ensures RestoresFromEveryPoint(fs, moves) <==> Clean(fs, moves)
  {
    DownIsEveryPoint(fs, moves);
    if Clean(fs, moves) {
      CleanRestoresDown(fs, moves);
    } else {
      UncleanIsNotRestored(fs, moves);
    }
  }

  lemma OccupiedIsNotRestored(fs: Fs, moves: seq<Move>, m: Move, rest: seq<Move>)
    requires moves == [m] + rest && WellFormed(fs) && Legal(fs, moves) && HoldsFile(fs, m.source)
    requires Clean(AfterMove(fs, m.source, m.target), rest) && !Clean(fs, moves)
    ensures !RestoresFiles(fs, moves)
  {
    var p :| p in fs && m.source <= p && fs[p].File?;
    var q := NearestFile(fs, m.source, p);
    OccupiedSourceLosesAFile(fs, m, rest, q);
  }

  /** A source without files misplaced in this way does no harm: if the command succeeds,
      everything outside it is restored, and so is the directory itself. */
  lemma EmptySourceIsHarmless(fs: Fs, m: Move, rest: seq<Move>)
    requires WellFormed(fs) && Legal(fs, [m] + rest) && Clean(AfterMove(fs, m.source, m.target), rest) && !Clean(fs, [m] + rest)
    requires !HoldsFile(fs, m.source)
    ensures var back := RunScript(End(fs, [m] + rest), RollbackLines([m] + rest));
            back.Some? ==> forall p | p in fs && (m.source <= p ==> p == m.source) :: At(back.value, p) == At(fs, p)
  {
    var back := RunScript(End(fs, [m] + rest), RollbackLines([m] + rest));
    if back.Some? {
      var next, name := AfterMove(fs, m.source, m.target), m.target[|m.target| - 1];
      var before := WithDirs(next, Residue(next, rest));
      OccupiedScript(fs, m, rest);
      OccupiedSourceMisplaces(fs, m, rest);
      forall p | p in fs && (m.source <= p ==> p == m.source) ensures At(back.value, p) == At(fs, p) {
        EmptyTreeMovesInside(fs, m.source, m.target, before, name, p);
      }
    }
  }

  lemma EmptyTreeMovesInside(fs: Fs, s: Path, t: Path, g: Fs, name: string, p: Path)
    requires CanMove(fs, s, t) && fs[s].Dir? && p in fs && (s <= p ==> p == s)
    requires IsDir(g, s) && MvTo(g, t, s + [name]).Some? && (p in AfterMove(fs, s, t) ==> At(g, p) == At(AfterMove(fs, s, t), p))
    ensures At(MvTo(g, t, s + [name]).value, p) == At(fs, p)
  {
    if p == s {
      Apart(fs, s, t, s);
      MovingInsideKeepsDir(g, t, s, name);
    } else {
      OutsideStays(fs, s, t, g, s + [name], p);
      OutsideStays(fs, s, t, g - {s + [name]}, s + [name], p);
    }
  }

  lemma OutsideStays(fs: Fs, s: Path, t: Path, g: Fs, dest: Path, p: Path)
    requires CanMove(fs, s, t) && p in fs && !(s <= p) && s <= dest
    requires p in AfterMove(fs, s, t) ==> At(g, p) == At(AfterMove(fs, s, t), p)
    ensures At(Rename(g, t, dest), p) == At(fs, p)
  {
    Apart(fs, s, t, p);
    AfterMoveAt(fs, s, t, p);
    RenameAt(g, t, dest, p);
    assert dest <= p ==> s <= p;
  }

  /** So it is needed that every tree moved holds a file. In any tree, let an empty directory `d`
      move to a free `x`, and then a file `y` to `d/z`: the run is not clean, yet every path is
      restored, from every point. */
  lemma EmptyDirectoryIsRestoredAnyway(fs: Fs, d: Path, x: Path, y: Path, z: string)
    requires CanRename(fs, d, x) && IsEmptyDir(fs, d) && y in fs && fs[y].File?
    ensures var moves := [Move(d, x), Move(y, d + [z])];
            && Legal(fs, moves) && !Clean(fs, moves) && RestoresFromEveryPoint(fs, moves)
            && var back := RunScript(End(fs, moves), RollbackLines(moves));
               back.Some? && forall p | p in fs :: At(back.value, p) == At(fs, p)
  {
    var m, rest := Move(d, x), [Move(y, d + [z])];
    assert [Move(d, x), Move(y, d + [z])] == [m] + rest && ([m] + rest)[1..] == rest;
    EmptyDirectoryPlan(fs, d, x, y, z);
    assert RunScript(End(fs, [m] + rest), RollbackLines([m] + rest)).Some? by {
      OccupiedScript(fs, m, rest);
      RoomInside(fs, d, x, {d});
    }
    EmptySourceIsHarmless(fs, m, rest);
    CleanRestoresFromEveryPoint(AfterMove(fs, d, x), rest);
    EveryPointStep(fs, [m] + rest);
  }

  lemma EmptyDirectoryPlan(fs: Fs, d: Path, x: Path, y: Path, z: string)
    requires CanRename(fs, d, x) && IsEmptyDir(fs, d) && y in fs && fs[y].File?
    ensures var m, rest := Move(d, x), [Move(y, d + [z])];
            && Legal(fs, [m] + rest) && !Clean(fs, [m] + rest) && !HoldsFile(fs, d)
            && WellFormed(AfterMove(fs, d, x)) && Legal(AfterMove(fs, d, x), rest) && Clean(AfterMove(fs, d, x), rest)
            && Residue(AfterMove(fs, d, x), rest) == {d}
  {
    var m, rest := Move(d, x), [Move(y, d + [z])];
    VacatedDirectory(fs, d, x, y, z);
    OneMove(AfterMove(fs, d, x), rest[0]);
    LegalCons(fs, m, rest);
    UncleanCons(fs, m, rest);
  }

  lemma UncleanCons(fs: Fs, m: Move, rest: seq<Move>)
    requires m.source in Residue(AfterMove(fs, m.source, m.target), rest)
    ensures !Clean(fs, [m] + rest)
  {
    assert ([m] + rest)[1..] == rest;
  }

  lemma OneMove(fs: Fs, m: Move)
    ensures Residue(fs, [m]) == MissingAbove(fs, m.target) && Clean(fs, [m])
    ensures Legal(fs, [m]) <==> CanMove(fs, m.source, m.target)
  {
    assert [m][1..] == [];
  }

  lemma FileNotAbove(fs: Fs, y: Path, d: Path)
    requires WellFormed(fs) && y in fs && fs[y].File? && IsDir(fs, d)
    ensures !(y <= d)
  {
    assert d[..|d|] == d && (y <= d ==> d[..|y|] == y);
    assert |y| < |d| ==> IsDir(fs, d[..|y|]);
  }

  /** Nothing lies below it. */
  predicate IsLeaf(fs: Fs, d: Path) {
    d in fs && forall p | p in fs && d <= p :: p == d
  }

  lemma FreeInside(fs: Fs, d: Path, x: Path, name: string)
    requires CanMove(fs, d, x) && IsLeaf(fs, d)
    ensures d + [name] !in AfterMove(fs, d, x) && !(x <= d + [name])
  {
    Apart(fs, d, x, d);
    AfterMoveAt(fs, d, x, d + [name]);
    assert x <= d + [name] ==> x == d + [name] || x <= d;
  }

  /** With nothing below the source, the command succeeds, and what was at the source is found
      inside the directory that stands there now. */
  lemma RoomInside(fs: Fs, d: Path, x: Path, extra: set<Path>)
    requires CanMove(fs, d, x) && IsLeaf(fs, d) && extra == {d}
    ensures x != [] && var dest := d + [x[|x| - 1]];
                       var g := WithDirs(AfterMove(fs, d, x), extra);
                       MvTo(g, x, dest) == Some(Rename(g, x, dest)) && At(Rename(g, x, dest), dest) == At(fs, d)
  {
    var dest, next := d + [x[|x| - 1]], AfterMove(fs, d, x);
    var g := WithDirs(next, extra);
    FreeInside(fs, d, x, x[|x| - 1]);
    assert At(g, x) == At(fs, d) by {
      AfterMoveAt(fs, d, x, x);
      assert d + x[|x|..] == d;
    }
    assert IsDir(g, d) by {
      AfterMoveAt(fs, d, x, d);
      Apart(fs, d, x, d);
    }
    assert dest[..|dest| - 1] == d && dest !in g;
    assert x + dest[|dest|..] == x;
    RenameAt(g, x, dest, dest);
  }

  lemma VacatedDirectory(fs: Fs, d: Path, x: Path, y: Path, z: string)
    requires CanRename(fs, d, x) && IsEmptyDir(fs, d) && y in fs && fs[y].File?
    ensures CanMove(fs, d, x)
    ensures var next := AfterMove(fs, d, x); CanMove(next, y, d + [z]) && MissingAbove(next, d + [z]) == {d}
  {
    var next, t := AfterMove(fs, d, x), d + [z];
    MoveIsRename(fs, d, x);
    Apart(fs, d, x, d);
    FreeInside(fs, d, x, z);
    AfterMoveAt(fs, d, x, d);
    AfterMoveAt(fs, d, x, y);
    Apart(fs, d, x, y);
    assert MissingAbove(fs, x) == {};
    forall k | 0 <= k < |d| ensures t[..k] == d[..k] && IsDir(next, d[..k]) {
      AfterMoveAt(fs, d, x, d[..k]);
      Apart(fs, d, x, d[..k]);
      assert !(d <= d[..k]);
    }
    assert t[..|d|] == d;
    FileNotAbove(fs, y, d);
    assert y <= t ==> y == t || y <= d;
    assert d in MissingAbove(next, t);
  }

  /** What the script does after the moves: they are clean exactly when every command lands where
      the move started, and, if every tree moved holds a file, exactly when the files are restored
      from every point. Clean moves are undone completely: every path holds what it held, and
      anything else is a directory that was made on the way. */
  predicate ScriptDoes(fs: Fs, moves: seq<Move>, end: Fs) {
    var back := RunScript(end, RollbackLines(moves));
    && (AllLandExactly(end, RollbackLines(moves)) <==> Clean(fs, moves))
    && (SourcesHoldFiles(fs, moves) ==> (RestoresFromEveryPoint(fs, moves) <==> Clean(fs, moves)))
    && (Clean(fs, moves) ==>
          && back.Some?
          && (forall p | p in fs :: At(back.value, p) == At(fs, p))
          && (forall p | p in back.value && p !in fs :: p in Residue(fs, moves) && back.value[p].Dir?))
  }

  lemma ScriptAfterMoves(fs: Fs, moves: seq<Move>)
    requires WellFormed(fs) && Legal(fs, moves)
    ensures ScriptDoes(fs, moves, End(fs, moves))
  {
    ExactIffClean(fs, moves);
    if SourcesHoldFiles(fs, moves) {
      RestoresFilesIffClean(fs, moves);
    }
    if Clean(fs, moves) {
      CleanRollbackRestores(fs, moves);
    }
  }

  /** The whole story, for every plan whose run completes: the script written from the moves
      applied does that to the tree the run leaves. */
  lemma RollbackUndoesApply(fs: Fs, plan: seq<Move>)
    requires WellFormed(fs) && Apply(fs, plan).completed
    ensures ScriptDoes(fs, Apply(fs, plan).applied, Apply(fs, plan).fs)
  {
    var o, moves := Progress(true, fs, [], [], []), Performed(fs, plan);
    AppliedIsPerformed(o, plan);
    PerformedMovesHappened(o, plan);
    assert [] + moves == moves;
    ScriptAfterMoves(fs, moves);
  }

  // Such a plan: `a` moves to `x`, then `y` moves to `a/z`.

  const BEFORE: Fs := map[[] := Dir, ["a"] := File([1]), ["y"] := File([2])]
  const BAD_PLAN := [Move(["a"], ["x"]), Move(["y"], ["a", "z"])]

  lemma BadPlanStart()
    ensures CanMove(BEFORE, ["a"], ["x"]) && IsLeaf(BEFORE, ["a"]) && WellFormed(AfterMove(BEFORE, ["a"], ["x"]))
  {
    assert ["a"][0] != ["x"][0] && ["a"][0] != ["y"][0];
    assert CanMove(BEFORE, ["a"], ["x"]);
    MoveIsRename(BEFORE, ["a"], ["x"]);
  }

  lemma BadPlanIsLegalAndUnclean()
    ensures WellFormed(BEFORE) && Legal(BEFORE, BAD_PLAN) && !Clean(BEFORE, BAD_PLAN)
    ensures Clean(AfterMove(BEFORE, ["a"], ["x"]), BAD_PLAN[1..])
  {
    BadPlanStart();
    assert ["a"][0] != ["x"][0] && ["y"][0] != ["a", "z"][0];
    var next := AfterMove(BEFORE, ["a"], ["x"]);
    MoveIsRename(BEFORE, ["a"], ["x"]);
    AfterMoveAt(BEFORE, ["a"], ["x"], ["y"]);
    AfterMoveAt(BEFORE, ["a"], ["x"], ["a"]);
    AfterMoveAt(BEFORE, ["a"], ["x"], ["a", "z"]);
    assert ["x"][0] != ["y"][0] && ["x"][0] != ["a"][0] && ["x"][0] != ["a", "z"][0];
    assert ["a", "z"][..0] == [] && ["a", "z"][..1] == ["a"];
    assert CanMove(next, ["y"], ["a", "z"]);
    assert ["a"] in MissingAbove(next, ["a", "z"]);
    assert BAD_PLAN[1..][1..] == [];
  }

  /** The script completes; `a` is left a directory, and its file is found at `a/x`. */
  lemma BadPlanLosesItsFirstFile()
    ensures var back := RunScript(End(BEFORE, BAD_PLAN), RollbackLines(BAD_PLAN));
            && BEFORE[["a"]].File? && back.Some?
            && IsDir(back.value, ["a"]) && At(back.value, ["a", "x"]) == At(BEFORE, ["a"])
  {
    BadPlanStart();
    BadPlanIsLegalAndUnclean();
    BadPlanResidue();
    var m, rest := Move(["a"], ["x"]), BAD_PLAN[1..];
    assert BAD_PLAN == [m] + rest && ["a"] + ["x"] == ["a", "x"];
    OccupiedFileIsNotRestored(BEFORE, m, rest);
    LeafIsFoundInside(BEFORE, m, rest);
  }

  lemma LegalHead(fs: Fs, m: Move, rest: seq<Move>)
    requires Legal(fs, [m] + rest)
    ensures CanMove(fs, m.source, m.target)
  {
  }

  /** If only the source itself was recreated and nothing lies below it, the script completes and
      leaves what was at the source inside the directory that stands there now. */
  lemma LeafIsFoundInside(fs: Fs, m: Move, rest: seq<Move>)
    requires WellFormed(fs) && Legal(fs, [m] + rest) && Clean(AfterMove(fs, m.source, m.target), rest) && !Clean(fs, [m] + rest)
    requires IsLeaf(fs, m.source) && Residue(AfterMove(fs, m.source, m.target), rest) == {m.source}
    ensures var back := RunScript(End(fs, [m] + rest), RollbackLines([m] + rest));
            m.target != [] && back.Some? && At(back.value, m.source + [m.target[|m.target| - 1]]) == At(fs, m.source)
  {
    LegalHead(fs, m, rest);
    RoomInside(fs, m.source, m.target, Residue(AfterMove(fs, m.source, m.target), rest));
    OccupiedScript(fs, m, rest);
  }

  lemma BadPlanResidue()
    ensures Residue(AfterMove(BEFORE, ["a"], ["x"]), BAD_PLAN[1..]) == {["a"]}
  {
    BadPlanStart();
    var next, m := AfterMove(BEFORE, ["a"], ["x"]), Move(["y"], ["a", "z"]);
    AfterMoveAt(BEFORE, ["a"], ["x"], ["a"]);
    assert ["x"][0] != ["a"][0];
    assert BAD_PLAN[1..] == [m] && m.target[..1] == ["a"];
    MissingOne(next, m.target, ["a"]);
    OneMove(next, m);
  }
}
