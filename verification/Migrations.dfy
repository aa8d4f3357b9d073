/** Ordered schema migrations (`db/migrate.go`). Each script runs in one transaction together
    with its bookkeeping row, so a run can only be interrupted between scripts. */
module Migrations {
  import opened MarketModel
  import opened Sorting

  datatype Migration = Migration(version: int, name: string, up: string, down: string)

  /** The effect of one script on the schema; `S` is whatever a schema is. */
  type Effect<!S> = (string, S) -> S

  // ---- loading ----------------------------------------------------------------------

  /** A migration file whose name has been parsed. */
  datatype File = File(version: int, name: string, isUp: bool, content: string)

  /** Is the script empty once white space is trimmed? */
  predicate Blank(s: string) {
    forall i :: 0 <= i < |s| ==> IsSpace(s[i])
  }

  /** The Unicode white-space characters. */
  predicate IsSpace(c: char) {
    var n := c as int;
    || 9 <= n <= 13 || n in {0x20, 0x85, 0xA0, 0x1680} || 0x2000 <= n <= 0x200A
    || n in {0x2028, 0x2029, 0x202F, 0x205F, 0x3000}
  }

  function AddFile(m: map<int, Migration>, f: File): map<int, Migration> {
    var prior := if f.version in m then m[f.version] else Migration(f.version, f.name, "", "");
    m[f.version := if f.isUp then prior.(up := f.content) else prior.(down := f.content)]
  }

  function AddFiles(fs: seq<File>): map<int, Migration> {
    if fs == [] then map[] else AddFile(AddFiles(fs[..|fs| - 1]), fs[|fs| - 1])
  }

  predicate Complete(m: Migration) {
    !Blank(m.up) && !Blank(m.down)
  }

  predicate Ascending(ms: seq<Migration>) {
    forall i, j :: 0 <= i < j < |ms| ==> ms[i].version < ms[j].version
  }

  function VersionOrder(): (Migration, Migration) -> bool {
    (x: Migration, y: Migration) => x.version <= y.version
  }

  lemma {:induction false} AddFilesKeys(fs: seq<File>)
    ensures forall v :: v in AddFiles(fs) ==> AddFiles(fs)[v].version == v
  {
    if fs != [] {
      AddFilesKeys(fs[..|fs| - 1]);
    }
  }

  lemma ValueHasItsKey(ms: map<int, Migration>, x: Migration)
    requires x in ms.Values && forall v :: v in ms ==> ms[v].version == v
    ensures x.version in ms && ms[x.version] == x
  {
    if forall v :: v in ms ==> ms[v] != x {
      assert false;
    }
  }

  method GroupByVersion(fs: seq<File>) returns (byVersion: map<int, Migration>)
    ensures byVersion == AddFiles(fs)
  {
    byVersion := map[];
    for i := 0 to |fs|
      invariant byVersion == AddFiles(fs[..i])
    {
      assert fs[..i + 1][..i] == fs[..i];
      byVersion := AddFile(byVersion, fs[i]);
    }
    assert fs[..|fs|] == fs;
  }

  /** The migrations of a table in some order, or nothing if one lacks a script. */
  method Collect(byVersion: map<int, Migration>) returns (out: Option<seq<Migration>>)
    ensures out.Some? <==> forall m :: m in byVersion.Values ==> Complete(m)
    ensures out.Some? ==> Distinct(out.value) && forall m :: m in out.value <==> m in byVersion.Values
  {
    var found: seq<Migration> := [];
    var todo := byVersion.Values;
    while todo != {}
      invariant todo <= byVersion.Values && Distinct(found)
      invariant forall m :: m in found <==> m in byVersion.Values - todo
      invariant forall m :: m in found ==> Complete(m)
      decreases |todo|
    {
      var m :| m in todo;
      assert m !in found;
      todo := todo - {m};
      if Blank(m.up) || Blank(m.down) {
        return None;
      }
      found := found + [m];
    }
    out := Some(found);
  }

  /** Sorting distinct values of a table keyed by version gives strictly ascending versions. */
  lemma SortedByVersion(byVersion: map<int, Migration>, found: seq<Migration>)
    requires forall v :: v in byVersion ==> byVersion[v].version == v
    requires Distinct(found) && forall m :: m in found <==> m in byVersion.Values
    ensures var sorted := SortBy(VersionOrder(), found);
      Ascending(sorted) && forall m :: m in sorted <==> m.version in byVersion && byVersion[m.version] == m
  {
    var sorted := SortBy(VersionOrder(), found);
    SortBySorts(VersionOrder(), found);
    SameElements(sorted, found);
    DistinctKept(found, sorted);
    forall m | m in sorted
      ensures m.version in byVersion && byVersion[m.version] == m
    {
      ValueHasItsKey(byVersion, m);
    }
    forall i, j | 0 <= i < j < |sorted|
      ensures sorted[i].version < sorted[j].version
    {
      assert VersionOrder()(sorted[i], sorted[j]);
      assert sorted[i] in sorted && sorted[j] in sorted;
    }
  }

  /** File `i` is the last one of its direction for version `v`. */
  predicate LastFor(fs: seq<File>, i: nat, v: int, isUp: bool) {
    && i < |fs| && fs[i].version == v && fs[i].isUp == isUp
    && forall j :: i < j < |fs| ==> fs[j].version != v || fs[j].isUp != isUp
  }

  predicate HasFile(fs: seq<File>, v: int, isUp: bool) {
    exists i :: 0 <= i < |fs| && fs[i].version == v && fs[i].isUp == isUp
  }

  /** What the table holds for version `v`: an entry if some file has the version, under the name
      of the first such file; its up script is the content of the last up file, its down script
      of the last down file, and empty if there is none. */
  ghost predicate Filed(fs: seq<File>, v: int, m: map<int, Migration>) {
    && (v in m <==> HasFile(fs, v, true) || HasFile(fs, v, false))
    && (v in m ==> m[v].version == v)
    && (v in m && !HasFile(fs, v, true) ==> m[v].up == "")
    && (v in m && !HasFile(fs, v, false) ==> m[v].down == "")
    && (forall i: nat :: v in m && LastFor(fs, i, v, true) ==> m[v].up == fs[i].content)
    && (forall i: nat :: v in m && LastFor(fs, i, v, false) ==> m[v].down == fs[i].content)
    && (forall i :: v in m && 0 <= i < |fs| && fs[i].version == v && (forall j :: 0 <= j < i ==> fs[j].version != v)
          ==> m[v].name == fs[i].name)
  }

  lemma {:induction false} AddFilesFile(fs: seq<File>, v: int)
    ensures Filed(fs, v, AddFiles(fs))
  {
    if fs != [] {
      var front, f := fs[..|fs| - 1], fs[|fs| - 1];
      AddFilesFile(front, v);
      OneMoreFile(front, f, v, AddFiles(front));
      assert front + [f] == fs;
    }
  }

  lemma OneMoreFile(front: seq<File>, f: File, v: int, m: map<int, Migration>)
    requires Filed(front, v, m)
    ensures Filed(front + [f], v, AddFile(m, f))
  {
    var fs := front + [f];
    var n := |front|;
    assert fs[n] == f && forall i :: 0 <= i < n ==> fs[i] == front[i];
    forall up: bool
      ensures HasFile(fs, v, up) <==> HasFile(front, v, up) || (f.version == v && f.isUp == up)
      ensures forall i: nat :: LastFor(fs, i, v, up) <==>
        if f.version == v && f.isUp == up then i == n else LastFor(front, i, v, up)
    {
    }
  }

  /** The last file of this direction for version `v` exists and is not blank. */
  ghost predicate Scripted(fs: seq<File>, v: int, isUp: bool) {
    exists i: nat :: LastFor(fs, i, v, isUp) && !Blank(fs[i].content)
  }

  lemma {:induction false} LastExists(fs: seq<File>, v: int, isUp: bool) returns (i: nat)
    requires HasFile(fs, v, isUp)
    ensures LastFor(fs, i, v, isUp)
  {
    i := |fs| - 1;
    if fs[i].version != v || fs[i].isUp != isUp {
      var front := fs[..i];
      var j :| 0 <= j < |fs| && fs[j].version == v && fs[j].isUp == isUp;
      assert front[j] == fs[j];
      i := LastExists(front, v, isUp);
    }
  }

  /** An entry is complete if and only if the last file of each direction is there and not
      blank. */
  lemma CompleteExactly(fs: seq<File>, v: int)
    requires v in AddFiles(fs)
    ensures Complete(AddFiles(fs)[v]) <==> Scripted(fs, v, true) && Scripted(fs, v, false)
  {
    AddFilesFile(fs, v);
    if HasFile(fs, v, true) {
      var i := LastExists(fs, v, true);
    }
    if HasFile(fs, v, false) {
      var i := LastExists(fs, v, false);
    }
  }

  /** `loadMigrations`: group files by version, demand both scripts, sort by version. */
  method LoadMigrations(fs: seq<File>) returns (out: Option<seq<Migration>>)
    ensures out.Some? <==> forall v :: v in AddFiles(fs) ==> Scripted(fs, v, true) && Scripted(fs, v, false)
    ensures out.Some? ==> Ascending(out.value)
    ensures out.Some? ==> forall m :: m in out.value <==> m.version in AddFiles(fs) && AddFiles(fs)[m.version] == m
  {
    var byVersion := GroupByVersion(fs);
    out := Collect(byVersion);
    AddFilesKeys(fs);
    CompleteByKey(byVersion);
    forall v | v in AddFiles(fs)
      ensures Complete(AddFiles(fs)[v]) <==> Scripted(fs, v, true) && Scripted(fs, v, false)
    {
      CompleteExactly(fs, v);
    }
    if out.Some? {
      SortedByVersion(byVersion, out.value);
      out := Some(SortBy(VersionOrder(), out.value));
    }
  }

  lemma CompleteByKey(ms: map<int, Migration>)
    requires forall v :: v in ms ==> ms[v].version == v
    ensures (forall m :: m in ms.Values ==> Complete(m)) <==> (forall v :: v in ms ==> Complete(ms[v]))
  {
    forall v | v in ms
      ensures ms[v] in ms.Values
    {
    }
    forall m | m in ms.Values
      ensures m.version in ms && ms[m.version] == m
    {
      ValueHasItsKey(ms, m);
    }
  }

  // ---- running ----------------------------------------------------------------------

  function Versions(ms: seq<Migration>): set<int> {
    set m | m in ms :: m.version
  }

  /** The migrations not recorded as applied, in list order. */
  function Missing(ms: seq<Migration>, applied: set<int>): seq<Migration> {
    if ms == [] then []
    else
      var front, m := Missing(ms[..|ms| - 1], applied), ms[|ms| - 1];
      if m.version in applied then front else front + [m]
  }

  /** The migrations recorded as applied, in list order. */
  function Present(ms: seq<Migration>, applied: set<int>): seq<Migration> {
    if ms == [] then []
    else
      var front, m := Present(ms[..|ms| - 1], applied), ms[|ms| - 1];
      if m.version in applied then front + [m] else front
  }

  function Reverse(ms: seq<Migration>): (r: seq<Migration>)
    ensures |r| == |ms| && forall i :: 0 <= i < |ms| ==> r[i] == ms[|ms| - 1 - i]
  {
    seq(|ms|, i requires 0 <= i < |ms| => ms[|ms| - 1 - i])
  }

  function RunUps<S>(exec: Effect<S>, s: S, ms: seq<Migration>): S {
    if ms == [] then s else exec(ms[|ms| - 1].up, RunUps(exec, s, ms[..|ms| - 1]))
  }

  function RunDowns<S>(exec: Effect<S>, s: S, ms: seq<Migration>): S {
    if ms == [] then s else exec(ms[|ms| - 1].down, RunDowns(exec, s, ms[..|ms| - 1]))
  }

  /** The first `n` elements, or all of them. */
  function Take(ms: seq<Migration>, n: nat): seq<Migration> {
    if n <= |ms| then ms[..n] else ms
  }

  /** Each down script undoes its up script. */
  ghost predicate Inverts<S(!new)>(exec: Effect<S>, ms: seq<Migration>) {
    forall m, s :: m in ms ==> exec(m.down, exec(m.up, s)) == s
  }

  /** The database: its schema, the recorded versions, and (as history only) the migrations that
      are applied, in the order in which they were. */
  datatype Db<S> = Db(schema: S, applied: set<int>, stack: seq<Migration>)

  function Without(ms: seq<Migration>, gone: seq<Migration>): seq<Migration> {
    if ms == [] then []
    else Without(ms[..|ms| - 1], gone) + if ms[|ms| - 1] in gone then [] else [ms[|ms| - 1]]
  }

  /** What `Up` runs when it is interrupted after at most `budget` scripts. */
  function UpRuns(ms: seq<Migration>, applied: set<int>, budget: nat): seq<Migration> {
    Take(Missing(ms, applied), budget)
  }

  /** What `Down` runs when it is interrupted after at most `budget` scripts. */
  function DownRuns(ms: seq<Migration>, applied: set<int>, budget: nat): seq<Migration> {
    Take(Reverse(Present(ms, applied)), budget)
  }

  function AfterUp<S>(exec: Effect<S>, db: Db<S>, run: seq<Migration>): Db<S> {
    Db(RunUps(exec, db.schema, run), db.applied + Versions(run), db.stack + run)
  }

  function AfterDown<S>(exec: Effect<S>, db: Db<S>, run: seq<Migration>): Db<S> {
    Db(RunDowns(exec, db.schema, run), db.applied - Versions(run), Without(db.stack, run))
  }

  class Migrator<S(!new)> {
    const migrations: seq<Migration>
    const exec: Effect<S>
    var schema: S
    var applied: set<int>
    ghost var stack: seq<Migration>

    ghost function State(): Db<S>
      reads this
    {
      Db(schema, applied, stack)
    }

    constructor (migrations: seq<Migration>, exec: Effect<S>, schema: S, applied: set<int>, ghost stack: seq<Migration>)
      ensures this.migrations == migrations && this.exec == exec
      ensures State() == Db(schema, applied, stack)
    {
      this.migrations, this.exec := migrations, exec;
      this.schema, this.applied, this.stack := schema, applied, stack;
    }

    /** `Up`. At most `budget` scripts succeed before the run is interrupted. */
    method Up(budget: nat) returns (done: bool)
      modifies this
      ensures State() == AfterUp(exec, old(State()), UpRuns(migrations, old(applied), budget))
      ensures done <==> |Missing(migrations, old(applied))| <= budget
    {
      var left: nat := budget;
      var before := applied;
      ghost var ran: seq<Migration> := [];
      for i := 0 to |migrations|
        invariant ran == Missing(migrations[..i], before) && left == budget - |ran|
        invariant applied == before + Versions(ran)
        invariant schema == RunUps(exec, old(schema), ran)
        invariant stack == old(stack) + ran
      {
        var mig := migrations[i];
        assert migrations[..i + 1][..i] == migrations[..i];
        if mig.version in before {
          continue;
        }
        if left == 0 {
          CutShort(migrations, before, i, budget);
          return false;
        }
        schema := exec(mig.up, schema);
        applied := applied + {mig.version};
        left := left - 1;
        stack := stack + [mig];
        Extended(exec, old(schema), ran, mig);
        ran := ran + [mig];
      }
      assert migrations[..|migrations|] == migrations;
      assert UpRuns(migrations, before, budget) == ran;
      return true;
    }

    /** `Down`, likewise interrupted after at most `budget` scripts. */
    method Down(budget: nat) returns (done: bool)
      modifies this
      ensures State() == AfterDown(exec, old(State()), DownRuns(migrations, old(applied), budget))
      ensures done <==> |Present(migrations, old(applied))| <= budget
    {
      var left: nat := budget;
      var before := applied;
      ghost var todo := Reverse(Present(migrations, before));
      ghost var ran: seq<Migration> := [];
      assert migrations[..|migrations|] == migrations;
      done := true;
      for i := |migrations| downto 0
        invariant todo == ran + Reverse(Present(migrations[..i], before)) && left == budget - |ran|
        invariant applied == before - Versions(ran)
        invariant schema == RunDowns(exec, old(schema), ran)
        invariant stack == old(stack) && done
      {
        var mig := migrations[i];
        PresentExtended(migrations, before, i);
        if mig.version !in before {
          continue;
        }
        if left == 0 {
          done := false;
          break;
        }
        schema := exec(mig.down, schema);
        applied := applied - {mig.version};
        left := left - 1;
        Extended(exec, old(schema), ran, mig);
        ran := ran + [mig];
      }
      assert Take(todo, budget) == ran;
      stack := Without(stack, ran);
    }
  }

  lemma Extended<S>(exec: Effect<S>, s: S, ran: seq<Migration>, m: Migration)
    ensures Versions(ran + [m]) == Versions(ran) + {m.version}
    ensures RunUps(exec, s, ran + [m]) == exec(m.up, RunUps(exec, s, ran))
    ensures RunDowns(exec, s, ran + [m]) == exec(m.down, RunDowns(exec, s, ran))
  {
    var all := ran + [m];
    assert all[..|all| - 1] == ran;
    assert m in all && forall x :: x in ran ==> x in all;
  }

  lemma PresentExtended(ms: seq<Migration>, applied: set<int>, i: nat)
    requires i < |ms|
    ensures Reverse(Present(ms[..i + 1], applied)) ==
            (if ms[i].version in applied then [ms[i]] else []) + Reverse(Present(ms[..i], applied))
  {
    assert ms[..i + 1][..i] == ms[..i];
  }

  /** Earlier missing migrations come first in the list of all missing ones. */
  lemma {:induction false} MissingSplits(ms: seq<Migration>, applied: set<int>, n: nat)
    requires n <= |ms|
    ensures Missing(ms[..n], applied) <= Missing(ms, applied)
  {
    if n == |ms| {
      assert ms[..n] == ms;
    } else {
      var front := ms[..|ms| - 1];
      MissingSplits(front, applied, n);
      assert front[..n] == ms[..n];
    }
  }

  /** A run that ends before a missing migration has run exactly its budget. */
  lemma CutShort(ms: seq<Migration>, applied: set<int>, i: nat, budget: nat)
    requires i < |ms| && ms[i].version !in applied && |Missing(ms[..i], applied)| == budget
    ensures UpRuns(ms, applied, budget) == Missing(ms[..i], applied)
    ensures |Missing(ms, applied)| > budget
  {
    assert ms[..i + 1][..i] == ms[..i];
    MissingSplits(ms, applied, i + 1);
  }

  // ---- prefixes ---------------------------------------------------------------------

  /** Exactly the first `k` migrations are recorded. */
  ghost predicate IsPrefix(ms: seq<Migration>, applied: set<int>, k: nat) {
    k <= |ms| && forall i :: 0 <= i < |ms| ==> (ms[i].version in applied <==> i < k)
  }

  lemma {:induction false} PrefixSplits(ms: seq<Migration>, applied: set<int>, k: nat)
    requires IsPrefix(ms, applied, k)
    ensures Present(ms, applied) == ms[..k] && Missing(ms, applied) == ms[k..]
  {
    if ms != [] {
      var n := |ms| - 1;
      var front := ms[..n];
      assert ms == front + [ms[n]];
      assert forall i :: 0 <= i < n ==> front[i] == ms[i];
      if k == |ms| {
        PrefixSplits(front, applied, n);
        assert Present(ms, applied) == front + [ms[n]] == ms[..k];
        assert Missing(ms, applied) == [] == ms[k..];
      } else {
        PrefixSplits(front, applied, k);
        assert Present(ms, applied) == front[..k] == ms[..k];
        assert Missing(ms, applied) == front[k..] + [ms[n]] == ms[k..];
      }
    }
  }

  lemma VersionsOfSlice(ms: seq<Migration>, lo: nat, hi: nat, i: nat)
    requires Ascending(ms) && lo <= hi <= |ms| && i < |ms|
    ensures ms[i].version in Versions(ms[lo..hi]) <==> lo <= i < hi
  {
    if lo <= i < hi {
      assert ms[lo..hi][i - lo] == ms[i];
    }
  }

  /** An `Up` interrupted at any script boundary leaves a prefix, `budget` longer. */
  lemma UpKeepsPrefix(ms: seq<Migration>, applied: set<int>, k: nat, budget: nat)
    requires Ascending(ms) && IsPrefix(ms, applied, k)
    ensures IsPrefix(ms, applied + Versions(UpRuns(ms, applied, budget)), UpTo(ms, k, budget))
    ensures UpRuns(ms, applied, budget) == ms[k..UpTo(ms, k, budget)]
  {
    PrefixSplits(ms, applied, k);
    var hi := UpTo(ms, k, budget);
    assert Take(ms[k..], budget) == ms[k..hi];
    forall i | 0 <= i < |ms|
      ensures ms[i].version in applied + Versions(ms[k..hi]) <==> i < hi
    {
      VersionsOfSlice(ms, k, hi, i);
    }
  }

  function UpTo(ms: seq<Migration>, k: nat, budget: nat): (hi: nat)
    requires k <= |ms|
    ensures k <= hi <= |ms|
  {
    if k + budget <= |ms| then k + budget else |ms|
  }

  function DownTo(k: nat, budget: nat): (lo: nat)
    ensures lo <= k
  {
    if budget <= k then k - budget else 0
  }

  /** A `Down` interrupted at any script boundary leaves a prefix, `budget` shorter. */
  lemma DownKeepsPrefix(ms: seq<Migration>, applied: set<int>, k: nat, budget: nat)
    requires Ascending(ms) && IsPrefix(ms, applied, k)
    ensures IsPrefix(ms, applied - Versions(DownRuns(ms, applied, budget)), DownTo(k, budget))
    ensures DownRuns(ms, applied, budget) == Reverse(ms[DownTo(k, budget)..k])
  {
    PrefixSplits(ms, applied, k);
    var lo := DownTo(k, budget);
    assert Take(Reverse(ms[..k]), budget) == Reverse(ms[lo..k]);
    ReverseVersions(ms[lo..k]);
    forall i | 0 <= i < |ms|
      ensures ms[i].version in applied - Versions(ms[lo..k]) <==> i < lo
    {
      VersionsOfSlice(ms, lo, k, i);
    }
  }

  lemma ReverseVersions(ms: seq<Migration>)
    ensures Versions(Reverse(ms)) == Versions(ms)
  {
    var back := Reverse(ms);
    forall m | m in ms
      ensures m in back
    {
      var i :| 0 <= i < |ms| && ms[i] == m;
      assert back[|ms| - 1 - i] == m;
    }
  }

  // ---- undoing ----------------------------------------------------------------------

  lemma SplitIsPrefix(ms: seq<Migration>, applied: set<int>)
    requires Present(ms, applied) + Missing(ms, applied) == ms
    ensures IsPrefix(ms, applied, |Present(ms, applied)|)
  {
    var present, missing := Present(ms, applied), Missing(ms, applied);
    Classified(ms, applied);
    forall i | 0 <= i < |ms|
      ensures ms[i].version in applied <==> i < |present|
    {
      if i < |present| {
        assert ms[i] == present[i];
      } else {
        assert ms[i] == missing[i - |present|];
      }
    }
  }

  lemma {:induction false} Classified(ms: seq<Migration>, applied: set<int>)
    ensures forall m :: m in Present(ms, applied) ==> m in ms && m.version in applied
    ensures forall m :: m in Missing(ms, applied) ==> m in ms && m.version !in applied
  {
    if ms != [] {
      Classified(ms[..|ms| - 1], applied);
    }
  }

  /** Down scripts in reverse order undo the up scripts. */
  lemma {:induction false} DownsUndoUps<S(!new)>(exec: Effect<S>, s: S, ms: seq<Migration>)
    requires Inverts(exec, ms)
    ensures RunDowns(exec, RunUps(exec, s, ms), Reverse(ms)) == s
  {
    if ms != [] {
      var front, m := ms[..|ms| - 1], ms[|ms| - 1];
      var top := RunUps(exec, s, ms);
      RunDownsFirst(exec, top, [m], Reverse(front));
      assert Reverse(ms) == [m] + Reverse(front);
      assert m in ms && [m][..0] == [];
      assert RunDowns(exec, top, [m]) == exec(m.down, RunDowns(exec, top, [])) == RunUps(exec, s, front);
      assert forall x :: x in front ==> x in ms;
      DownsUndoUps(exec, s, front);
    }
  }

  lemma {:induction false} RunDownsFirst<S>(exec: Effect<S>, s: S, a: seq<Migration>, b: seq<Migration>)
    ensures RunDowns(exec, s, a + b) == RunDowns(exec, RunDowns(exec, s, a), b)
  {
    if b == [] {
      assert a + b == a;
    } else {
      var front := b[..|b| - 1];
      RunDownsFirst(exec, s, a, front);
      assert (a + b)[..|a + b| - 1] == a + front;
    }
  }

  lemma {:induction false} RunUpsSplit<S>(exec: Effect<S>, s: S, a: seq<Migration>, b: seq<Migration>)
    ensures RunUps(exec, s, a + b) == RunUps(exec, RunUps(exec, s, a), b)
  {
    if b == [] {
      assert a + b == a;
    } else {
      var front := b[..|b| - 1];
      RunUpsSplit(exec, s, a, front);
      assert (a + b)[..|a + b| - 1] == a + front;
    }
  }

  // ---- any sequence of interrupted runs ---------------------------------------------

  datatype Op = UpOp(budget: nat) | DownOp(budget: nat)

  function RunOp<S>(exec: Effect<S>, ms: seq<Migration>, db: Db<S>, op: Op): Db<S> {
    match op
    case UpOp(budget) => AfterUp(exec, db, UpRuns(ms, db.applied, budget))
    case DownOp(budget) => AfterDown(exec, db, DownRuns(ms, db.applied, budget))
  }

  function RunOps<S>(exec: Effect<S>, ms: seq<Migration>, db: Db<S>, ops: seq<Op>): Db<S> {
    if ops == [] then db else RunOp(exec, ms, RunOps(exec, ms, db, ops[..|ops| - 1]), ops[|ops| - 1])
  }

  /** The first `k` migrations were applied to `s0`, in order, and nothing else. */
  ghost predicate AtPrefix<S(!new)>(exec: Effect<S>, ms: seq<Migration>, s0: S, db: Db<S>, k: nat) {
    && IsPrefix(ms, db.applied, k) && db.applied == Versions(ms[..k]) && db.stack == ms[..k]
    && (Inverts(exec, ms) ==> db.schema == RunUps(exec, s0, ms[..k]))
  }

  lemma UpFromPrefix<S(!new)>(exec: Effect<S>, ms: seq<Migration>, s0: S, db: Db<S>, k: nat, budget: nat)
    requires Ascending(ms) && AtPrefix(exec, ms, s0, db, k)
    ensures AtPrefix(exec, ms, s0, RunOp(exec, ms, db, UpOp(budget)), UpTo(ms, k, budget))
  {
    var hi := UpTo(ms, k, budget);
    UpKeepsPrefix(ms, db.applied, k, budget);
    assert ms[..k] + ms[k..hi] == ms[..hi];
    RunUpsSplit(exec, s0, ms[..k], ms[k..hi]);
    VersionsJoin(ms[..k], ms[k..hi]);
  }

  lemma VersionsJoin(a: seq<Migration>, b: seq<Migration>)
    ensures Versions(a + b) == Versions(a) + Versions(b)
  {
    assert forall m :: m in a + b <==> m in a || m in b;
  }

  lemma DownFromPrefix<S(!new)>(exec: Effect<S>, ms: seq<Migration>, s0: S, db: Db<S>, k: nat, budget: nat)
    requires Ascending(ms) && AtPrefix(exec, ms, s0, db, k)
    ensures AtPrefix(exec, ms, s0, RunOp(exec, ms, db, DownOp(budget)), DownTo(k, budget))
  {
    var lo := DownTo(k, budget);
    DownKeepsPrefix(ms, db.applied, k, budget);
    VersionsBelow(ms, lo, k);
    WithoutTail(ms, lo, k);
    if Inverts(exec, ms) {
      SchemaBelow(exec, ms, s0, lo, k);
    }
  }

  lemma VersionsBelow(ms: seq<Migration>, lo: nat, k: nat)
    requires Ascending(ms) && lo <= k <= |ms|
    ensures Versions(ms[..k]) - Versions(Reverse(ms[lo..k])) == Versions(ms[..lo])
  {
    assert ms[..lo] + ms[lo..k] == ms[..k];
    VersionsJoin(ms[..lo], ms[lo..k]);
    ReverseVersions(ms[lo..k]);
  }

  lemma SchemaBelow<S(!new)>(exec: Effect<S>, ms: seq<Migration>, s0: S, lo: nat, k: nat)
    requires lo <= k <= |ms| && Inverts(exec, ms)
    ensures RunDowns(exec, RunUps(exec, s0, ms[..k]), Reverse(ms[lo..k])) == RunUps(exec, s0, ms[..lo])
  {
    assert ms[..lo] + ms[lo..k] == ms[..k];
    RunUpsSplit(exec, s0, ms[..lo], ms[lo..k]);
    assert forall m :: m in ms[lo..k] ==> m in ms;
    DownsUndoUps(exec, RunUps(exec, s0, ms[..lo]), ms[lo..k]);
  }

  lemma {:induction false} WithoutTail(ms: seq<Migration>, lo: nat, k: nat)
    requires Ascending(ms) && lo <= k <= |ms|
    ensures Without(ms[..k], Reverse(ms[lo..k])) == ms[..lo]
  {
    var gone := Reverse(ms[lo..k]);
    forall i | 0 <= i < k
      ensures ms[i] in gone <==> lo <= i
    {
      VersionsOfSlice(ms, lo, k, i);
      ReverseVersions(ms[lo..k]);
      if lo <= i {
        assert gone[k - 1 - i] == ms[i];
      }
    }
    WithoutUpTo(ms, gone, lo, k);
  }

  lemma {:induction false} WithoutUpTo(ms: seq<Migration>, gone: seq<Migration>, lo: nat, n: nat)
    requires n <= |ms| && lo <= |ms| && forall i :: 0 <= i < n ==> (ms[i] in gone <==> lo <= i)
    ensures Without(ms[..n], gone) == if n <= lo then ms[..n] else ms[..lo]
  {
    if n > 0 {
      WithoutUpTo(ms, gone, lo, n - 1);
      assert ms[..n][..n - 1] == ms[..n - 1];
      assert n <= lo ==> ms[..n] == ms[..n - 1] + [ms[n - 1]];
    }
  }

  /** Over any sequence of `Up` and `Down` runs, each interrupted at any script boundary, from an
      empty database: the recorded versions are a prefix, the applied scripts and their order are
      that prefix, and if every down script inverts its up script the schema is what the prefix
      builds. */
  lemma {:induction false} OpsKeepPrefix<S(!new)>(exec: Effect<S>, ms: seq<Migration>, s0: S, ops: seq<Op>)
    returns (k: nat)
    requires Ascending(ms)
    ensures AtPrefix(exec, ms, s0, RunOps(exec, ms, Db(s0, {}, []), ops), k)
  {
    if ops == [] {
      k := 0;
      assert ms[..0] == [];
    } else {
      var front, op := ops[..|ops| - 1], ops[|ops| - 1];
      var j := OpsKeepPrefix(exec, ms, s0, front);
      var db := RunOps(exec, ms, Db(s0, {}, []), front);
      match op {
        case UpOp(budget) =>
          UpFromPrefix(exec, ms, s0, db, j, budget);
          k := UpTo(ms, j, budget);
        case DownOp(budget) =>
          DownFromPrefix(exec, ms, s0, db, j, budget);
          k := DownTo(j, budget);
      }
    }
  }

  /** Whatever runs went before, `Down` undoes what is applied in exactly the reverse of the order
      in which it was applied. */
  lemma DownUndoesLastFirst<S(!new)>(exec: Effect<S>, ms: seq<Migration>, s0: S, ops: seq<Op>, budget: nat)
    requires Ascending(ms)
    ensures var db := RunOps(exec, ms, Db(s0, {}, []), ops);
      DownRuns(ms, db.applied, budget) == Take(Reverse(db.stack), budget)
  {
    var k := OpsKeepPrefix(exec, ms, s0, ops);
    PrefixSplits(ms, RunOps(exec, ms, Db(s0, {}, []), ops).applied, k);
  }

  /** Whatever runs went before, a complete `Down` restores the schema they started from and
      leaves nothing applied. */
  lemma DownRestores<S(!new)>(exec: Effect<S>, ms: seq<Migration>, s0: S, ops: seq<Op>)
    requires Ascending(ms) && Inverts(exec, ms)
    ensures RunOps(exec, ms, Db(s0, {}, []), ops + [DownOp(|ms|)]) == Db(s0, {}, [])
  {
    var db := RunOps(exec, ms, Db(s0, {}, []), ops);
    var k := OpsKeepPrefix(exec, ms, s0, ops);
    DownFromPrefix(exec, ms, s0, db, k, |ms|);
    assert (ops + [DownOp(|ms|)])[..|ops|] == ops;
    assert ms[..0] == [];
  }

  // ---- a new release ----------------------------------------------------------------

  lemma AscendingIsSorted(ms: seq<Migration>)
    requires Ascending(ms)
    ensures Distinct(ms) && Sorted(VersionOrder(), ms) && Antisymmetric(VersionOrder(), ms)
  {
    forall x, y | x in ms && y in ms && x.version == y.version
      ensures x == y
    {
      var i :| 0 <= i < |ms| && ms[i] == x;
      var j :| 0 <= j < |ms| && ms[j] == y;
    }
  }

  lemma {:induction false} PresentAscends(ms: seq<Migration>, applied: set<int>)
    requires Ascending(ms)
    ensures Ascending(Present(ms, applied))
    ensures forall m :: m in Present(ms, applied) <==> m in ms && m.version in applied
  {
    if ms != [] {
      var front, last := ms[..|ms| - 1], ms[|ms| - 1];
      PresentAscends(front, applied);
      assert ms == front + [last];
      assert forall m :: m in front ==> m.version < last.version;
    }
  }

  /** What an earlier release applied, in its own order, is what the new list finds present. */
  lemma EarlierIsPresent(ms: seq<Migration>, earlier: seq<Migration>)
    requires Ascending(ms) && Ascending(earlier) && forall m :: m in earlier ==> m in ms
    ensures Present(ms, Versions(earlier)) == earlier
  {
    var present := Present(ms, Versions(earlier));
    PresentAscends(ms, Versions(earlier));
    AscendingIsSorted(ms);
    AscendingIsSorted(earlier);
    AscendingIsSorted(present);
    forall m | m in present
      ensures m in earlier
    {
      var e :| e in earlier && e.version == m.version;
      assert VersionOrder()(m, e) && VersionOrder()(e, m);
    }
    SameListing(present, earlier);
    SortedIsUnique(VersionOrder(), present, earlier);
  }

  lemma PresentAll(ms: seq<Migration>, applied: set<int>)
    requires Versions(ms) <= applied
    ensures Present(ms, applied) == ms
  {
    forall i | 0 <= i < |ms|
      ensures ms[i].version in applied
    {
      assert ms[i] in ms;
    }
    PrefixSplits(ms, applied, |ms|);
    assert ms[..|ms|] == ms;
  }

  /** A later release may insert migrations among those an earlier one has applied. After any runs
      of the earlier release and a complete `Up` of the later one, `Down` undoes in exactly the
      reverse of the recorded order of application if and only if what the earlier release left
      applied is a prefix of the later list. */
  lemma DownReversesExactlyFromPrefix<S(!new)>(exec: Effect<S>, before: seq<Migration>, ms: seq<Migration>, s0: S,
                                               ops: seq<Op>)
    requires Ascending(before) && Ascending(ms) && forall m :: m in before ==> m in ms
    ensures var db := RunOps(exec, before, Db(s0, {}, []), ops);
      var up := RunOp(exec, ms, db, UpOp(|ms|));
      Reverse(Present(ms, up.applied)) == Reverse(up.stack) <==> exists k: nat :: IsPrefix(ms, db.applied, k)
  {
    var db := RunOps(exec, before, Db(s0, {}, []), ops);
    var j := OpsKeepPrefix(exec, before, s0, ops);
    var earlier := before[..j];
    assert forall m :: m in earlier ==> m in before;
    EarlierIsPresent(ms, earlier);
    StackReverses(ms, db.applied, earlier + Missing(ms, db.applied));
    MissingIsRest(ms, db.applied);
    PresentAll(ms, db.applied + Versions(Missing(ms, db.applied)));
  }

  lemma StackReverses(ms: seq<Migration>, applied: set<int>, stack: seq<Migration>)
    requires stack == Present(ms, applied) + Missing(ms, applied)
    ensures Reverse(ms) == Reverse(stack) <==> exists k: nat :: IsPrefix(ms, applied, k)
  {
    ReverseInjective(ms, stack);
    if k: nat :| IsPrefix(ms, applied, k) {
      PrefixSplits(ms, applied, k);
      assert ms[..k] + ms[k..] == ms;
    }
    if ms == stack {
      SplitIsPrefix(ms, applied);
    }
  }

  lemma ReverseInjective(a: seq<Migration>, b: seq<Migration>)
    ensures Reverse(a) == Reverse(b) <==> a == b
  {
    assert Reverse(Reverse(a)) == a && Reverse(Reverse(b)) == b;
  }

  /** A complete `Up` runs everything missing, after which every version is recorded. */
  lemma {:induction false} MissingIsRest(ms: seq<Migration>, applied: set<int>)
    ensures UpRuns(ms, applied, |ms|) == Missing(ms, applied)
    ensures Versions(ms) <= applied + Versions(Missing(ms, applied))
    ensures |Missing(ms, applied)| <= |ms|
  {
    if ms != [] {
      var front, last := ms[..|ms| - 1], ms[|ms| - 1];
      MissingIsRest(front, applied);
      assert ms == front + [last];
      VersionsJoin(front, [last]);
      if last.version !in applied {
        VersionsJoin(Missing(front, applied), [last]);
      }
    }
  }
}
