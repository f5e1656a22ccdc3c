/**
 * The migration runner: the `.sql` files of the migrations directory in sorted name order, each run
 * once and recorded in a log whose filenames are unique.
 */
module Migrate {
  import opened Wrappers
  import opened Sequences
  import DbConnection

  // ---------------------------------------------------------------- file name order

  /** Python's `<` on names: code-point lexicographic order, a prefix first. */
  predicate NameLe(a: string, b: string)
    decreases |a|
  {
    |a| == 0 || (|b| > 0 && (a[0] < b[0] || (a[0] == b[0] && NameLe(a[1..], b[1..]))))
  }

  lemma {:induction false} NameLeTotalAt(a: string, b: string)
    ensures NameLe(a, b) || NameLe(b, a)
    decreases |a|
  {
    if |a| > 0 && |b| > 0 && a[0] == b[0] {
      NameLeTotalAt(a[1..], b[1..]);
    }
  }

  lemma {:induction false} NameLeTransAt(a: string, b: string, c: string)
    requires NameLe(a, b) && NameLe(b, c)
    ensures NameLe(a, c)
    decreases |a|
  {
    if |a| > 0 && a[0] == b[0] && b[0] == c[0] {
      NameLeTransAt(a[1..], b[1..], c[1..]);
    }
  }

  /** The order `sorted` uses is total and transitive, so sorting yields an ordered list. */
  lemma NameOrder()
    ensures Total(NameLe) && Transitive(NameLe)
  {
    forall a, b
      ensures NameLe(a, b) || NameLe(b, a)
    {
      NameLeTotalAt(a, b);
    }
    forall a, b, c | NameLe(a, b) && NameLe(b, c)
      ensures NameLe(a, c)
    {
      NameLeTransAt(a, b, c);
    }
  }

  /** `sorted(MIGRATIONS_DIR.glob("*.sql"))`, by file name (all files share one directory). */
  function SortedNames(files: seq<string>): (r: seq<string>)
    ensures multiset(r) == multiset(files)
    ensures SortedBy(r, NameLe)
  {
    SortByPermutation(files, NameLe);
    NameOrder();
    SortBySorted(files, NameLe);
    SortBy(files, NameLe)
  }

  // ---------------------------------------------------------------- the specification

  /** The log after a run and the file whose script raised, if one did. */
  datatype MigrationRun = MigrationRun(applied: seq<string>, failed: Option<string>)

  /** The loop of `apply_migrations` over the sorted files, with `ok` telling whether a script runs through. */
  function Migrations(files: seq<string>, applied: seq<string>, ok: string -> bool): MigrationRun
    decreases |files|
  {
    if |files| == 0 then MigrationRun(applied, None)
    else if files[0] in applied then Migrations(files[1..], applied, ok)
    else if !ok(files[0]) then MigrationRun(applied, Some(files[0]))
    else Migrations(files[1..], applied + [files[0]], ok)
  }

  /** The log only grows, and what is appended was in the listing, not yet logged, and ran through. */
  lemma {:induction false} MigrationsAppend(files: seq<string>, applied: seq<string>, ok: string -> bool)
    ensures var r := Migrations(files, applied, ok);
      |applied| <= |r.applied| && r.applied[..|applied|] == applied &&
      forall k :: |applied| <= k < |r.applied| ==>
        ok(r.applied[k]) && r.applied[k] in files && r.applied[k] !in applied
    decreases |files|
  {
    if |files| > 0 && files[0] !in applied && ok(files[0]) {
      var next := applied + [files[0]];
      MigrationsAppend(files[1..], next, ok);
      var r := Migrations(files, applied, ok);
      assert r.applied[..|next|] == next;
      assert r.applied[..|applied|] == next[..|applied|];
      forall k | |applied| <= k < |r.applied|
        ensures r.applied[k] in files && r.applied[k] !in applied
      {
        if k == |applied| {
          assert r.applied[k] == next[k];
        }
      }
    } else if |files| > 0 && files[0] in applied {
      MigrationsAppend(files[1..], applied, ok);
    }
  }

  /** With the log's filenames unique before the run they stay unique: no file is applied twice. */
  lemma {:induction false} MigrationsDistinct(files: seq<string>, applied: seq<string>, ok: string -> bool)
    requires Distinct(applied)
    ensures Distinct(Migrations(files, applied, ok).applied)
    decreases |files|
  {
    if |files| > 0 && files[0] !in applied && ok(files[0]) {
      MigrationsDistinct(files[1..], applied + [files[0]], ok);
    } else if |files| > 0 && files[0] in applied {
      MigrationsDistinct(files[1..], applied, ok);
    }
  }

  /** A run stops at a file whose script raised, which stays unlogged; a run that finishes has logged every file. */
  lemma {:induction false} MigrationsOutcome(files: seq<string>, applied: seq<string>, ok: string -> bool)
    ensures var r := Migrations(files, applied, ok);
      (r.failed.Some? ==> r.failed.value in files && !ok(r.failed.value) && r.failed.value !in r.applied) &&
      (r.failed.None? ==> forall k :: 0 <= k < |files| ==> files[k] in r.applied)
    decreases |files|
  {
    if |files| > 0 {
      var next := if files[0] in applied then applied else applied + [files[0]];
      if files[0] in applied || ok(files[0]) {
        MigrationsOutcome(files[1..], next, ok);
        MigrationsAppend(files[1..], next, ok);
        var r := Migrations(files, applied, ok);
        assert files[0] in next;
        assert files[0] in r.applied by {
          var i :| 0 <= i < |next| && next[i] == files[0];
          assert r.applied[..|next|][i] == files[0];
        }
        if r.failed.Some? {
          assert r.failed.value != files[0];
        }
        forall k | 0 <= k < |files| && r.failed.None?
          ensures files[k] in r.applied
        {
          if k > 0 {
            assert files[k] == files[1..][k - 1];
          }
        }
      }
    }
  }

  /** Running again after a complete run changes nothing. */
  lemma {:induction false} MigrationsIdempotent(files: seq<string>, applied: seq<string>, ok: string -> bool)
    requires forall k :: 0 <= k < |files| ==> files[k] in applied
    ensures Migrations(files, applied, ok) == MigrationRun(applied, None)
    decreases |files|
  {
    if |files| > 0 {
      MigrationsIdempotent(files[1..], applied, ok);
    }
  }

  /** The files appended in one run come in the order of the listing. */
  lemma {:induction false} MigrationsInOrder(files: seq<string>, applied: seq<string>, ok: string -> bool)
    requires SortedBy(files, NameLe)
    ensures var r := Migrations(files, applied, ok);
      |applied| <= |r.applied| && SortedBy(r.applied[|applied|..], NameLe)
    decreases |files|
  {
    MigrationsAppend(files, applied, ok);
    if |files| > 0 && files[0] !in applied && ok(files[0]) {
      var next := applied + [files[0]];
      var r := Migrations(files, applied, ok);
      MigrationsInOrder(files[1..], next, ok);
      MigrationsAppend(files[1..], next, ok);
      var added := r.applied[|applied|..];
      forall i, j | 0 <= i < j < |added|
        ensures NameLe(added[i], added[j])
      {
        assert added[j] == r.applied[|next| + j - 1];
        if i == 0 {
          assert added[0] == files[0];
          var m :| 0 <= m < |files[1..]| && files[1..][m] == added[j];
          assert files[m + 1] == added[j];
        } else {
          assert added[i] == r.applied[|next|..][i - 1];
          assert added[j] == r.applied[|next|..][j - 1];
        }
      }
    } else if |files| > 0 && files[0] in applied {
      MigrationsInOrder(files[1..], applied, ok);
    }
  }

  // ---------------------------------------------------------------- the runner

  /** Whether a script runs through: none of its statements is rejected. */
  predicate ScriptOk(text: string, fails: string -> bool) {
    var stmts := DbConnection.ScriptStatements(text);
    forall k :: 0 <= k < |stmts| ==> !fails(stmts[k])
  }

  /** The `migrations_log` table. */
  class MigrationLog {
    var applied: seq<string>

    /** `_ensure_migrations_table` on an empty database. */
    constructor ()
      ensures applied == []
    {
      applied := [];
    }

    /** `_is_applied` */
    function IsApplied(filename: string): (b: bool)
      reads this
      ensures b <==> filename in applied
    {
      filename in applied
    }

    /** `_mark_applied` */
    method MarkApplied(filename: string)
      modifies this
      ensures applied == old(applied) + [filename]
    {
      applied := applied + [filename];
    }

    /**
     * `apply_migrations` for a directory listing, each file's text given by `content` and each
     * statement's rejection by `fails`. The file whose script raises ends the run.
     */
    method ApplyMigrations(files: seq<string>, content: string -> string, fails: string -> bool)
      returns (failed: Option<string>)
      modifies this
      ensures MigrationRun(applied, failed) ==
        Migrations(SortedNames(files), old(applied), f => ScriptOk(content(f), fails))
    {
      var ok := f => ScriptOk(content(f), fails);
      var sorted := SortedNames(files);
      var i := 0;
      while i < |sorted|
        invariant 0 <= i <= |sorted|
        invariant Migrations(sorted, old(applied), ok) == Migrations(sorted[i..], applied, ok)
      {
        var fname := sorted[i];
        assert sorted[i..][1..] == sorted[i + 1..];
        if IsApplied(fname) {
          i := i + 1;
          continue;
        }
        var _, _, committed := DbConnection.RunSqlScript(content(fname), fails);
        if !committed {
          return Some(fname);
        }
        MarkApplied(fname);
        i := i + 1;
      }
      failed := None;
    }
  }

  /** A run on a log without duplicates keeps it without duplicates and appends only scripts that ran through. */
  lemma ApplyKeepsLogUnique(files: seq<string>, applied: seq<string>, ok: string -> bool)
    requires Distinct(applied)
    ensures var r := Migrations(SortedNames(files), applied, ok);
      Distinct(r.applied) && |applied| <= |r.applied| && SortedBy(r.applied[|applied|..], NameLe) &&
      forall k :: |applied| <= k < |r.applied| ==> ok(r.applied[k]) && r.applied[k] in files
  {
    var sorted := SortedNames(files);
    MigrationsDistinct(sorted, applied, ok);
    MigrationsInOrder(sorted, applied, ok);
    MigrationsAppend(sorted, applied, ok);
    var r := Migrations(sorted, applied, ok);
    forall k | |applied| <= k < |r.applied|
      ensures r.applied[k] in files
    {
      assert r.applied[k] in multiset(sorted);
    }
  }

  /** After a run without failure, a second run over the same files applies nothing. */
  lemma SecondRunIsNoOp(files: seq<string>, applied: seq<string>, ok: string -> bool)
    ensures var r := Migrations(SortedNames(files), applied, ok);
      r.failed.None? ==> Migrations(SortedNames(files), r.applied, ok) == MigrationRun(r.applied, None)
  {
    var sorted := SortedNames(files);
    MigrationsOutcome(sorted, applied, ok);
    var r := Migrations(sorted, applied, ok);
    if r.failed.None? {
      MigrationsIdempotent(sorted, r.applied, ok);
    }
  }
}
