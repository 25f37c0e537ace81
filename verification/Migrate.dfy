/** The migration runner (backend/tools/migrate/main.go). */
module Migrate {

  // ---------- Names and their order ----------

  const SUFFIX: string := ".up.sql"

  /** Byte order, as `sort.Strings` and a C-collated `ORDER BY` have it. */
  predicate Less(a: string, b: string) {
    b != [] && (a == [] || a[0] < b[0] || (a[0] == b[0] && Less(a[1..], b[1..])))
  }

  /** The order of the up files; the directory is common to all. */
  predicate FileLess(a: string, b: string) { Less(a + SUFFIX, b + SUFFIX) }

  predicate IsPrefix(a: string, b: string) { |a| <= |b| && a == b[..|a|] }

  // ---------- The runner ----------

  /** The scripts of a directory, as what they do to the schema, and which down files exist. */
  datatype Dir<!S> = Dir(up: (string, S) -> S, down: (string, S) -> S, downs: set<string>)

  datatype Db<S> = Db(applied: set<string>, schema: S)

  /** How one transaction ends: a failure anywhere in it rolls it back, except that a commit
      may take effect although its acknowledgement is lost. */
  datatype Outcome = Done | RolledBack | Unacknowledged

  datatype Report<S> = Report(db: Db<S>, ok: bool)

  function Upped<S>(dir: Dir<S>, db: Db<S>, v: string): Db<S> {
    Db(db.applied + {v}, dir.up(v, db.schema))
  }

  function Downed<S>(dir: Dir<S>, db: Db<S>, v: string): Db<S> {
    Db(db.applied - {v}, dir.down(v, db.schema))
  }

  /** What is left of an up run: `files` still to look at, `count` already applied. */
  function UpFrom<S>(dir: Dir<S>, db: Db<S>, files: seq<string>, steps: int, count: nat, tx: nat -> Outcome): Report<S>
    decreases |files|
  {
    if files == [] then Report(db, true)
    else if files[0] in db.applied then UpFrom(dir, db, files[1..], steps, count, tx)
    else
      match tx(count)
      case RolledBack => Report(db, false)
      case Unacknowledged => Report(Upped(dir, db, files[0]), false)
      case Done =>
        if steps > 0 && count + 1 >= steps then Report(Upped(dir, db, files[0]), true)
        else UpFrom(dir, Upped(dir, db, files[0]), files[1..], steps, count + 1, tx)
  }

  function DownFrom<S>(dir: Dir<S>, db: Db<S>, versions: seq<string>, steps: int, count: nat, tx: nat -> Outcome): Report<S>
    decreases |versions|
  {
    if versions == [] || count >= steps then Report(db, true)
    else if versions[0] !in dir.downs then Report(db, false)
    else
      match tx(count)
      case RolledBack => Report(db, false)
      case Unacknowledged => Report(Downed(dir, db, versions[0]), false)
      case Done => DownFrom(dir, Downed(dir, db, versions[0]), versions[1..], steps, count + 1, tx)
  }

  function DownSteps(steps: int): int { if steps == 0 then 1 else steps }

  class Runner<S> {
    const dir: Dir<S>
    var db: Db<S>

    constructor (dir: Dir<S>, db: Db<S>)
      ensures this.dir == dir && this.db == db
    {
      this.dir, this.db := dir, db;
    }

    method MigrateUp(files: seq<string>, steps: int, tx: nat -> Outcome) returns (ok: bool)
      modifies this
      ensures Report(db, ok) == UpFrom(dir, old(db), files, steps, 0, tx)
    {
      var applied := 0;
      for i := 0 to |files|
        invariant UpFrom(dir, db, files[i..], steps, applied, tx) == UpFrom(dir, old(db), files, steps, 0, tx)
      {
        var version := files[i];
        assert files[i..][1..] == files[i+1..];
        if version in db.applied { continue; }
        match tx(applied) {
          case RolledBack => return false;
          case Unacknowledged =>
            db := Upped(dir, db, version);
            return false;
          case Done =>
            db := Upped(dir, db, version);
        }
        applied := applied + 1;
        if steps > 0 && applied >= steps { return true; }
      }
      return true;
    }

    /** `versions` is what the query for the applied versions returned. */
    method MigrateDown(versions: seq<string>, steps: int, tx: nat -> Outcome) returns (ok: bool)
      modifies this
      ensures Report(db, ok) == DownFrom(dir, old(db), versions, DownSteps(steps), 0, tx)
    {
      var wanted := if steps == 0 then 1 else steps;
      var reverted := 0;
      for i := 0 to |versions|
        invariant DownFrom(dir, db, versions[i..], wanted, reverted, tx) == DownFrom(dir, old(db), versions, wanted, 0, tx)
      {
        if reverted >= wanted { return true; }
        var version := versions[i];
        assert versions[i..][1..] == versions[i+1..];
        if version !in dir.downs { return false; }
        match tx(reverted) {
          case RolledBack => return false;
          case Unacknowledged =>
            db := Downed(dir, db, version);
            return false;
          case Done =>
            db := Downed(dir, db, version);
        }
        reverted := reverted + 1;
      }
      return true;
    }
  }

  // ---------- The applied versions are a prefix ----------

  function Names(files: seq<string>): set<string> { set f | f in files }

  function Fold<S>(dir: Dir<S>, files: seq<string>, empty: S): S {
    if files == [] then empty else dir.up(files[|files|-1], Fold(dir, files[..|files|-1], empty))
  }

  /** Exactly the first `n` files are applied and the schema is theirs. */
  ghost predicate At<S>(dir: Dir<S>, files: seq<string>, empty: S, db: Db<S>, n: nat) {
    n <= |files| && db.applied == Names(files[..n]) && db.schema == Fold(dir, files[..n], empty)
  }

  ghost predicate Distinct(files: seq<string>) {
    forall i, j :: 0 <= i < j < |files| ==> files[i] != files[j]
  }

  lemma AtNext<S>(dir: Dir<S>, files: seq<string>, empty: S, db: Db<S>, n: nat)
    requires At(dir, files, empty, db, n) && n < |files|
    ensures At(dir, files, empty, Upped(dir, db, files[n]), n + 1)
  {
    assert files[..n+1] == files[..n] + [files[n]];
    assert files[..n+1][..n] == files[..n];
  }

  lemma NotYet(files: seq<string>, n: nat)
    requires Distinct(files) && n < |files|
    ensures files[n] !in Names(files[..n])
  {
  }

  /** Where an up run without failures ends. */
  function Reached(total: nat, n: nat, steps: int): nat
    requires n <= total
  {
    if steps <= 0 || n + steps > total then total else n + steps
  }

  lemma {:induction false} UpSkips<S>(dir: Dir<S>, files: seq<string>, empty: S, db: Db<S>, n: nat, i: nat,
                                      steps: int, tx: nat -> Outcome)
    requires At(dir, files, empty, db, n) && i <= n
    ensures UpFrom(dir, db, files[i..], steps, 0, tx) == UpFrom(dir, db, files[n..], steps, 0, tx)
    decreases n - i
  {
    if i < n {
      assert files[i] in files[..n];
      assert files[i..][1..] == files[i+1..];
      UpSkips(dir, files, empty, db, n, i + 1, steps, tx);
    }
  }

  lemma {:induction false} UpAdvances<S>(dir: Dir<S>, files: seq<string>, empty: S, db: Db<S>, n: nat,
                                         steps: int, count: nat, tx: nat -> Outcome) returns (m: nat)
    requires At(dir, files, empty, db, n) && Distinct(files) && (steps > 0 ==> count < steps)
    ensures var r := UpFrom(dir, db, files[n..], steps, count, tx);
            && At(dir, files, empty, r.db, m)
            && n <= m <= Reached(|files|, n, steps - count)
            && (r.ok ==> m == if steps > 0 then Reached(|files|, n, steps - count) else |files|)
            && ((forall k :: tx(k) == Done) ==> r.ok)
    decreases |files| - n
  {
    m := n;
    if n < |files| {
      NotYet(files, n);
      AtNext(dir, files, empty, db, n);
      assert files[n..][1..] == files[n+1..];
      if tx(count).Done? && !(steps > 0 && count + 1 >= steps) {
        m := UpAdvances(dir, files, empty, Upped(dir, db, files[n]), n + 1, steps, count + 1, tx);
      } else if !tx(count).RolledBack? {
        m := n + 1;
      }
    }
  }

  /** An up run from a prefix ends at a longer prefix, wherever it fails; without failures it
      ends exactly `steps` files further, or at the end. */
  lemma UpKeepsPrefix<S>(dir: Dir<S>, files: seq<string>, empty: S, db: Db<S>, n: nat, steps: int,
                         tx: nat -> Outcome) returns (m: nat)
    requires At(dir, files, empty, db, n) && Distinct(files)
    ensures var r := UpFrom(dir, db, files, steps, 0, tx);
            && At(dir, files, empty, r.db, m)
            && n <= m <= Reached(|files|, n, steps)
            && (steps > 0 ==> m <= n + steps)
            && (r.ok ==> m == if steps > 0 && n + steps < |files| then n + steps else |files|)
            && ((forall k :: tx(k) == Done) ==> r.ok)
  {
    UpSkips(dir, files, empty, db, n, 0, steps, tx);
    assert files[0..] == files;
    m := UpAdvances(dir, files, empty, db, n, steps, 0, tx);
  }

  /** A result of `ORDER BY version DESC`, possibly cut short: the greatest versions first. */
  ghost predicate Listing(versions: seq<string>, applied: set<string>) {
    && (forall v :: v in versions ==> v in applied)
    && (forall i, j :: 0 <= i < j < |versions| ==> Less(versions[j], versions[i]))
    && (forall v, i :: v in applied && v !in versions && 0 <= i < |versions| ==> Less(v, versions[i]))
  }

  /** The version order of the files is their file order. */
  ghost predicate InVersionOrder(files: seq<string>) {
    forall i, j :: 0 <= i < j < |files| ==> Less(files[i], files[j])
  }

  lemma {:induction false} LessIsStrict(a: string, b: string)
    ensures !(Less(a, b) && Less(b, a))
  {
    if a != [] && b != [] { LessIsStrict(a[1..], b[1..]); }
  }

  /** The first version listed is the last file applied. */
  lemma ListedFirst(versions: seq<string>, files: seq<string>, n: nat)
    requires InVersionOrder(files) && n <= |files| && Listing(versions, Names(files[..n])) && versions != []
    ensures n > 0 && versions[0] == files[n-1]
  {
    var top := versions[0];
    assert top in Names(files[..n]);
    var i :| 0 <= i < n && files[i] == top;
    var last := files[n-1];
    assert files[..n][n-1] in Names(files[..n]);
    if last in versions {
      var j :| 0 <= j < |versions| && versions[j] == last;
    }
    assert last == top || Less(last, top);
    LessIsStrict(top, last);
  }

  lemma ListedRest(versions: seq<string>, files: seq<string>, n: nat)
    requires InVersionOrder(files) && 0 < n <= |files| && Listing(versions, Names(files[..n]))
    requires versions != [] && versions[0] == files[n-1]
    ensures Names(files[..n-1]) == Names(files[..n]) - {files[n-1]}
    ensures Listing(versions[1..], Names(files[..n-1]))
  {
    assert files[..n] == files[..n-1] + [files[n-1]];
    forall i | 0 <= i < n - 1 ensures files[i] != files[n-1] {
      LessIsStrict(files[i], files[n-1]);
    }
    forall j | 0 < j < |versions| ensures versions[j] != versions[0] {
      LessIsStrict(versions[j], versions[0]);
    }
  }

  /** Every down script undoes its up script. */
  ghost predicate Inverse<S>(dir: Dir<S>, files: seq<string>, empty: S) {
    forall k :: 0 <= k < |files| ==>
      dir.down(files[k], Fold(dir, files[..k+1], empty)) == Fold(dir, files[..k], empty)
  }

  lemma AtPrevious<S>(dir: Dir<S>, files: seq<string>, empty: S, db: Db<S>, n: nat)
    requires At(dir, files, empty, db, n) && n > 0 && Inverse(dir, files, empty)
    requires Names(files[..n-1]) == Names(files[..n]) - {files[n-1]}
    ensures At(dir, files, empty, Downed(dir, db, files[n-1]), n - 1)
  {
  }

  function LeftAfter(n: nat, listed: nat, steps: int): nat
    requires listed <= n
  {
    if steps <= 0 then n else if listed < steps then n - listed else n - steps
  }

  /** A down run from a prefix ends at a shorter prefix, wherever it fails; without failures it
      undoes as many as asked or listed. */
  lemma {:induction false} DownKeepsPrefix<S>(dir: Dir<S>, files: seq<string>, empty: S, db: Db<S>, n: nat,
                                              versions: seq<string>, steps: int, count: nat, tx: nat -> Outcome)
    returns (m: nat)
    requires At(dir, files, empty, db, n) && InVersionOrder(files) && Inverse(dir, files, empty)
    requires Listing(versions, db.applied)
    ensures var r := DownFrom(dir, db, versions, steps, count, tx);
            && |versions| <= n
            && At(dir, files, empty, r.db, m)
            && LeftAfter(n, |versions|, steps - count) <= m <= n
            && (r.ok ==> m == LeftAfter(n, |versions|, steps - count))
            && ((forall k :: tx(k) == Done) && (forall v :: v in versions ==> v in dir.downs) ==> r.ok)
    decreases |versions|
  {
    m := n;
    if versions != [] {
      ListedFirst(versions, files, n);
      ListedRest(versions, files, n);
      AtPrevious(dir, files, empty, db, n);
      var db' := Downed(dir, db, versions[0]);
      if count < steps && versions[0] in dir.downs && tx(count).Done? {
        m := DownKeepsPrefix(dir, files, empty, db', n - 1, versions[1..], steps, count + 1, tx);
      } else {
        ListingFits(versions, files, n);
        if count < steps && versions[0] in dir.downs && tx(count).Unacknowledged? { m := n - 1; }
      }
    }
  }

  /** One down without a step count undoes exactly the last file applied, and as many as asked
      for, or all there are, with one; a negative count undoes nothing. */
  lemma DownUndoes<S>(dir: Dir<S>, files: seq<string>, empty: S, db: Db<S>, n: nat,
                      versions: seq<string>, steps: int, tx: nat -> Outcome)
    requires At(dir, files, empty, db, n) && InVersionOrder(files) && Inverse(dir, files, empty)
    requires Listing(versions, db.applied) && |versions| == n
    requires (forall k :: tx(k) == Done) && forall v :: v in versions ==> v in dir.downs
    ensures var r := DownFrom(dir, db, versions, DownSteps(steps), 0, tx);
            && r.ok
            && (steps == 0 && n > 0 ==> At(dir, files, empty, r.db, n - 1))
            && (steps < 0 || n == 0 ==> r.db == db)
            && (0 < steps <= n ==> At(dir, files, empty, r.db, n - steps))
            && (0 < n < steps ==> At(dir, files, empty, r.db, 0))
  {
    var m := DownKeepsPrefix(dir, files, empty, db, n, versions, DownSteps(steps), 0, tx);
  }

  lemma {:induction false} ListingFits(versions: seq<string>, files: seq<string>, n: nat)
    requires InVersionOrder(files) && n <= |files| && Listing(versions, Names(files[..n]))
    ensures |versions| <= n
    decreases |versions|
  {
    if versions != [] {
      ListedFirst(versions, files, n);
      ListedRest(versions, files, n);
      ListingFits(versions[1..], files, n - 1);
    }
  }

  datatype Command =
    | Up(steps: int, tx: nat -> Outcome)
    | Down(steps: int, versions: seq<string>, tx: nat -> Outcome)

  ghost predicate Executes<S>(dir: Dir<S>, files: seq<string>, db: Db<S>, c: Command, db': Db<S>) {
    match c
    case Up(steps, tx) => db' == UpFrom(dir, db, files, steps, 0, tx).db
    case Down(steps, versions, tx) =>
      Listing(versions, db.applied) && db' == DownFrom(dir, db, versions, DownSteps(steps), 0, tx).db
  }

  /** The databases between the commands of a run, each of which may fail anywhere. */
  ghost predicate Ran<S>(dir: Dir<S>, files: seq<string>, dbs: seq<Db<S>>, cs: seq<Command>) {
    && |dbs| == |cs| + 1
    && forall i :: 0 <= i < |cs| ==> Executes(dir, files, dbs[i], cs[i], dbs[i+1])
  }

  /** Whatever the commands, the applied versions stay a prefix of the files and the schema
      stays what that prefix makes it. */
  lemma {:induction false} AlwaysAPrefix<S>(dir: Dir<S>, files: seq<string>, empty: S, dbs: seq<Db<S>>,
                                            cs: seq<Command>, k: nat) returns (n: nat)
    requires Ran(dir, files, dbs, cs) && dbs[0] == Db({}, empty) && k <= |cs|
    requires InVersionOrder(files) && Inverse(dir, files, empty)
    ensures At(dir, files, empty, dbs[k], n)
  {
    n := 0;
    if k > 0 {
      VersionOrderIsDistinct(files);
      n := AlwaysAPrefix(dir, files, empty, dbs, cs, k - 1);
      match cs[k-1] {
        case Up(steps, tx) => n := UpKeepsPrefix(dir, files, empty, dbs[k-1], n, steps, tx);
        case Down(steps, versions, tx) =>
          n := DownKeepsPrefix(dir, files, empty, dbs[k-1], n, versions, DownSteps(steps), 0, tx);
      }
    }
  }

  lemma VersionOrderIsDistinct(files: seq<string>)
    requires InVersionOrder(files)
    ensures Distinct(files)
  {
    forall i, j | 0 <= i < j < |files| ensures files[i] != files[j] { LessIsStrict(files[i], files[j]); }
  }

  // ---------- Up, then down ----------

  lemma PrefixIsUnique<S>(dir: Dir<S>, files: seq<string>, empty: S, db: Db<S>, n: nat, m: nat)
    requires Distinct(files) && At(dir, files, empty, db, n) && At(dir, files, empty, db, m)
    ensures n == m
  {
    if n < m { assert files[..m][n] in Names(files[..m]); NotYet(files, n); }
    if m < n { assert files[..n][m] in Names(files[..n]); NotYet(files, m); }
  }

  /** Up by `k` and then down by `k`, neither failing, restores the database exactly when as
      many steps go down as went up. */
  lemma UpThenDown<S>(dir: Dir<S>, files: seq<string>, empty: S, db: Db<S>, n: nat, k: int,
                      versions: seq<string>, tx: nat -> Outcome)
    requires At(dir, files, empty, db, n) && InVersionOrder(files) && Distinct(files) && Inverse(dir, files, empty)
    requires (forall v :: v in files ==> v in dir.downs) && forall i :: tx(i) == Done
    requires var up := UpFrom(dir, db, files, k, 0, tx);
             Listing(versions, up.db.applied) && |versions| == |up.db.applied|
    ensures var up := UpFrom(dir, db, files, k, 0, tx);
            var down := DownFrom(dir, up.db, versions, DownSteps(k), 0, tx);
            var m := Reached(|files|, n, k);
            && up.ok && down.ok
            && (down.db == db <==> LeftAfter(m, m, DownSteps(k)) == n)
  {
    var up := UpFrom(dir, db, files, k, 0, tx);
    var m := UpKeepsPrefix(dir, files, empty, db, n, k, tx);
    CountNames(files[..m]);
    var l := DownKeepsPrefix(dir, files, empty, up.db, m, versions, DownSteps(k), 0, tx);
    var down := DownFrom(dir, up.db, versions, DownSteps(k), 0, tx);
    if down.db == db { PrefixIsUnique(dir, files, empty, db, n, l); }
  }

  lemma {:induction false} CountNames(s: seq<string>)
    requires Distinct(s)
    ensures |Names(s)| == |s|
  {
    if s != [] {
      var t, e := s[..|s|-1], s[|s|-1];
      CountNames(t);
      assert s == t + [e] && e !in t;
      assert Names(s) == Names(t) + {e};
    }
  }

  /** For a positive `k` that is: at least `k` migrations were pending, or none was applied. */
  lemma UpThenDownFor(total: nat, n: nat, k: int)
    requires n <= total && k > 0
    ensures var m := Reached(total, n, k); LeftAfter(m, m, DownSteps(k)) == n <==> total - n >= k || n == 0
  {
  }

  // ---------- When the two orders differ ----------

  lemma {:induction false} LessExtends(p: string, a: string, b: string)
    ensures Less(p + a, p + b) <==> Less(a, b)
  {
    if p == [] {
      assert p + a == a && p + b == b;
    } else {
      LessExtends(p[1..], a, b);
      assert (p + a)[1..] == p[1..] + a && (p + b)[1..] == p[1..] + b;
    }
  }

  lemma PrefixTail(a: string, b: string)
    requires a != [] && b != [] && a[0] == b[0]
    ensures IsPrefix(a[1..], b[1..]) ==> IsPrefix(a, b)
  {
    assert a == [a[0]] + a[1..] && b == [b[0]] + b[1..];
    assert |a| <= |b| ==> b[..|a|] == [b[0]] + b[1..][..|a|-1];
  }

  lemma {:induction false} LessUnrelated(a: string, b: string, x: string)
    requires !IsPrefix(a, b) && !IsPrefix(b, a)
    ensures Less(a + x, b + x) <==> Less(a, b)
    decreases |a|
  {
    assert a[0] == (a + x)[0] && b[0] == (b + x)[0];
    if a[0] == b[0] {
      PrefixTail(a, b);
      PrefixTail(b, a);
      LessUnrelated(a[1..], b[1..], x);
      assert (a + x)[1..] == a[1..] + x && (b + x)[1..] == b[1..] + x;
    }
  }

  /** Two versions are ordered alike as versions and as file names unless one is the other
      with something added; then the shorter version is first by version, and first by file
      name exactly if the file suffix sorts before what was added. */
  lemma OrdersDiffer(a: string, b: string)
    ensures !IsPrefix(a, b) && !IsPrefix(b, a) ==> (FileLess(a, b) <==> Less(a, b))
    ensures IsPrefix(a, b) && a != b ==>
              Less(a, b) && (FileLess(a, b) <==> Less(SUFFIX, b[|a|..] + SUFFIX))
  {
    if !IsPrefix(a, b) && !IsPrefix(b, a) {
      LessUnrelated(a, b, SUFFIX);
    } else if IsPrefix(a, b) && a != b {
      assert b == a + b[|a|..];
      OrdersOfExtension(a, b[|a|..]);
    }
  }

  lemma OrdersOfExtension(a: string, rest: string)
    requires rest != []
    ensures Less(a, a + rest)
    ensures FileLess(a, a + rest) <==> Less(SUFFIX, rest + SUFFIX)
  {
    LessExtends(a, [], rest);
    assert a + [] == a;
    LessExtends(a, SUFFIX, rest + SUFFIX);
    assert (a + rest) + SUFFIX == a + (rest + SUFFIX);
  }

  ghost predicate Extends(a: string, b: string) { IsPrefix(a, b) && a != b }

  /** So files sorted by name are in version order if and only if no version extends another
      by something that sorts before the suffix. */
  lemma SortedFilesInVersionOrder(files: seq<string>)
    requires forall i, j :: 0 <= i < j < |files| ==> FileLess(files[i], files[j])
    ensures InVersionOrder(files) <==>
            forall a, b :: a in files && b in files && Extends(a, b) ==> Less(SUFFIX, b[|a|..] + SUFFIX)
  {
    forall a, b | InVersionOrder(files) && a in files && b in files && Extends(a, b)
      ensures Less(SUFFIX, b[|a|..] + SUFFIX)
    {
      OrdersDiffer(a, b);
      LessIsStrict(a, b);
    }
    if forall a, b :: a in files && b in files && Extends(a, b) ==> Less(SUFFIX, b[|a|..] + SUFFIX) {
      forall i, j | 0 <= i < j < |files| ensures Less(files[i], files[j]) {
        var a, b := files[i], files[j];
        OrdersDiffer(a, b);
        OrdersDiffer(b, a);
        LessIsStrict(a + SUFFIX, b + SUFFIX);
        assert Extends(b, a) ==> FileLess(b, a);
        assert IsPrefix(a, b) && IsPrefix(b, a) ==> a == b;
      }
    }
  }

  // ---------- The prefix is kept exactly in version order ----------

  lemma {:induction false} LessIsTotal(a: string, b: string)
    requires a != b
    ensures Less(a, b) || Less(b, a)
  {
    if a != [] && b != [] && a[0] == b[0] {
      assert a == [a[0]] + a[1..] && b == [b[0]] + b[1..];
      LessIsTotal(a[1..], b[1..]);
    }
  }

  lemma {:induction false} LessIsTransitive(a: string, b: string, c: string)
    requires Less(a, b) && Less(b, c)
    ensures Less(a, c)
  {
    if a != [] && a[0] == b[0] && b[0] == c[0] { LessIsTransitive(a[1..], b[1..], c[1..]); }
  }

  /** Some version is above all others. */
  lemma {:induction false} Greatest(files: seq<string>) returns (top: string)
    requires files != [] && Distinct(files)
    ensures top in files && forall f :: f in files && f != top ==> Less(f, top)
  {
    var init, last := files[..|files|-1], files[|files|-1];
    assert files == init + [last];
    if init == [] {
      top := last;
    } else {
      top := Greatest(init);
      LessIsTotal(top, last);
      if Less(top, last) {
        forall f | f in init && f != top ensures Less(f, last) { LessIsTransitive(f, top, last); }
        top := last;
      }
    }
  }

  function AllDone(k: nat): Outcome { Done }

  /** Two files out of version order: after going up to the later one, taking one version
      down, whatever the query lists of it, leaves a hole. */
  lemma DownLeavesAHole<S>(dir: Dir<S>, files: seq<string>, empty: S, i: nat, j: nat, versions: seq<string>, tx: nat -> Outcome)
    requires Distinct(files) && i < j < |files| && !Less(files[i], files[j])
    requires Names(files) <= dir.downs && forall k :: tx(k) == Done
    requires versions != [] && Listing(versions, UpFrom(dir, Db({}, empty), files, j + 1, 0, tx).db.applied)
    ensures var up := UpFrom(dir, Db({}, empty), files, j + 1, 0, tx);
            var down := DownFrom(dir, up.db, versions, 1, 0, tx);
            up.ok && down.ok && forall n: nat :: !At(dir, files, empty, down.db, n)
  {
    var up := UpFrom(dir, Db({}, empty), files, j + 1, 0, tx);
    var m := UpKeepsPrefix(dir, files, empty, Db({}, empty), 0, j + 1, tx);
    assert m == j + 1;
    var top := versions[0];
    assert top in up.db.applied;
    var k :| 0 <= k < m && files[k] == top;
    assert files[..m][i] in up.db.applied && files[..m][j] in up.db.applied;
    if k == j { FirstIsGreatest(versions, up.db.applied, files[i]); }
    var left := Downed(dir, up.db, top);
    assert DownFrom(dir, up.db, versions, 1, 0, tx) == DownFrom(dir, left, versions[1..], 1, 1, tx) == Report(left, true);
    forall n: nat ensures !At(dir, files, empty, left, n) {
      if n <= |files| { HoleIsNoPrefix(files, k, j, n); }
    }
  }

  lemma FirstIsGreatest(versions: seq<string>, applied: set<string>, v: string)
    requires versions != [] && Listing(versions, applied) && v in applied && v != versions[0]
    ensures Less(v, versions[0])
  {
    if v in versions {
      var j :| 0 <= j < |versions| && versions[j] == v;
    }
  }

  /** All but an earlier one of the first `j + 1` files are not the first `n` files. */
  lemma HoleIsNoPrefix(files: seq<string>, k: nat, j: nat, n: nat)
    requires Distinct(files) && k < j < |files| && n <= |files|
    ensures Names(files[..n]) != Names(files[..j+1]) - {files[k]}
  {
    assert files[..j+1][j] == files[j];
    if n > j {
      assert files[..n][k] in Names(files[..n]);
    } else {
      assert files[j] !in Names(files[..n]);
      assert files[j] in Names(files[..j+1]);
    }
  }

  ghost predicate AtSome<S>(dir: Dir<S>, files: seq<string>, empty: S, db: Db<S>) {
    exists n: nat :: At(dir, files, empty, db, n)
  }

  /** Every run from an empty database, whatever its commands and failures, is at a prefix of
      the files after each command. */
  ghost predicate KeepsPrefix<S(!new)>(dir: Dir<S>, files: seq<string>, empty: S) {
    forall dbs: seq<Db<S>>, cs, k: nat :: Ran(dir, files, dbs, cs) && dbs[0] == Db({}, empty) && k <= |cs| ==>
      AtSome(dir, files, empty, dbs[k])
  }

  lemma OutOfOrderRun<S>(dir: Dir<S>, files: seq<string>, empty: S, i: nat, j: nat)
    returns (dbs: seq<Db<S>>, cs: seq<Command>)
    requires Distinct(files) && i < j < |files| && !Less(files[i], files[j]) && Names(files) <= dir.downs
    ensures Ran(dir, files, dbs, cs) && |cs| == 2 && dbs[0] == Db({}, empty)
    ensures !AtSome(dir, files, empty, dbs[2])
  {
    var db0 := Db({}, empty);
    var up := UpFrom(dir, db0, files, j + 1, 0, AllDone);
    var m := UpKeepsPrefix(dir, files, empty, db0, 0, j + 1, AllDone);
    var top := Greatest(files[..m]);
    var versions := [top];
    DownLeavesAHole(dir, files, empty, i, j, versions, AllDone);
    cs := [Up(j + 1, AllDone), Down(1, versions, AllDone)];
    dbs := [db0, up.db, DownFrom(dir, up.db, versions, 1, 0, AllDone).db];
  }

  /** Where every down script exists and undoes its up script, every run keeps a prefix if and
      only if the files are in version order. */
  lemma PrefixIffVersionOrder<S(!new)>(dir: Dir<S>, files: seq<string>, empty: S)
    requires Distinct(files) && Inverse(dir, files, empty) && Names(files) <= dir.downs
    ensures KeepsPrefix(dir, files, empty) <==> InVersionOrder(files)
  {
    if InVersionOrder(files) {
      OrderKeepsPrefix(dir, files, empty);
    } else {
      var i, j :| 0 <= i < j < |files| && !Less(files[i], files[j]);
      var dbs, cs := OutOfOrderRun(dir, files, empty, i, j);
      assert !AtSome(dir, files, empty, dbs[2]);
    }
  }

  lemma OrderKeepsPrefix<S(!new)>(dir: Dir<S>, files: seq<string>, empty: S)
    requires InVersionOrder(files) && Inverse(dir, files, empty)
    ensures KeepsPrefix(dir, files, empty)
  {
    forall dbs: seq<Db<S>>, cs, k: nat | Ran(dir, files, dbs, cs) && dbs[0] == Db({}, empty) && k <= |cs|
      ensures AtSome(dir, files, empty, dbs[k])
    {
      var n := AlwaysAPrefix(dir, files, empty, dbs, cs, k);
    }
  }

  /** In terms of file names: every run keeps a prefix if and only if no version extends
      another by something that sorts before the file suffix. */
  lemma PrefixIffNoShortExtension<S(!new)>(dir: Dir<S>, files: seq<string>, empty: S)
    requires forall i, j :: 0 <= i < j < |files| ==> FileLess(files[i], files[j])
    requires Inverse(dir, files, empty) && Names(files) <= dir.downs
    ensures KeepsPrefix(dir, files, empty) <==>
            forall a, b :: a in files && b in files && Extends(a, b) ==> Less(SUFFIX, b[|a|..] + SUFFIX)
  {
    forall i, j | 0 <= i < j < |files| ensures files[i] != files[j] {
      LessIsStrict(files[i] + SUFFIX, files[j] + SUFFIX);
    }
    PrefixIffVersionOrder(dir, files, empty);
    SortedFilesInVersionOrder(files);
  }

  /** A directory where they differ: `001-a.up.sql` sorts before `001.up.sql`, so up applies
      it first, but down takes it back first as well and what is left is no prefix. */
  lemma PrefixIsLost<S>(dir: Dir<S>, empty: S, tx: nat -> Outcome)
    requires forall i :: tx(i) == Done
    requires {"001", "001-a"} <= dir.downs
    ensures var files := ["001-a", "001"];
            var up := UpFrom(dir, Db({}, empty), files, 0, 0, tx);
            var down := DownFrom(dir, up.db, ["001-a", "001"], 1, 0, tx);
            && FileLess("001-a", "001") && Listing(["001-a", "001"], up.db.applied)
            && up.ok && down.ok && forall n :: !At(dir, files, empty, down.db, n)
  {
    var a, b := "001-a", "001";
    LessExtends(b, "-a" + SUFFIX, SUFFIX);
    assert b + ("-a" + SUFFIX) == a + SUFFIX;
    LessExtends(b, [], "-a");
    var db := Db({}, empty);
    var one := Upped(dir, db, a);
    assert UpFrom(dir, db, [a, b], 0, 0, tx) == UpFrom(dir, one, [b], 0, 1, tx);
    var two := Upped(dir, one, b);
    assert UpFrom(dir, one, [b], 0, 1, tx) == UpFrom(dir, two, [], 0, 2, tx);
    assert DownFrom(dir, two, [a, b], 1, 0, tx) == DownFrom(dir, Downed(dir, two, a), [b], 1, 1, tx);
    var files := [a, b];
    assert a !in Downed(dir, two, a).applied && b in Downed(dir, two, a).applied;
    forall n | 0 < n <= |files| ensures a in Names(files[..n]) { assert files[..n][0] == a; }
  }
}
