/**
 * The database helpers: environment lookups with defaults, the connection settings, the shared
 * pool that is created once, and the runner that cuts a `.sql` script into statements and executes
 * them in order. The database driver is left out; a statement's failure is an input.
 */
module DbConnection {
  import opened Wrappers
  import opened Strings
  import opened Sequences
  import ConfigParser

  // ---------------------------------------------------------------- environment

  /** `_env(name, default)`: the variable, else the default, else a `RuntimeError`. */
  function Env(env: map<string, string>, name: string, default: Option<string>): (r: Result<string>)
    ensures r.Err? <==> name !in env && default.None?
    ensures r.Err? ==> r.error == "Environment variable " + name + " is required"
    ensures name in env ==> r == Ok(env[name])
    ensures name !in env && default.Some? ==> r == Ok(default.value)
  {
    if name in env then Ok(env[name])
    else if default.Some? then Ok(default.value)
    else Err("Environment variable " + name + " is required")
  }

  /** The keyword arguments `get_db_config` hands to the pool. */
  datatype DbConfig = DbConfig(host: string, port: int, user: string, password: string, db: string,
                               charset: string, autocommit: bool, maxsize: int)

  /** `get_db_config`: every variable has a default, so only the two `int(...)` conversions can fail. */
  function GetDbConfig(env: map<string, string>): (r: Result<DbConfig>)
    ensures r.Err? <==> ConfigParser.ParseInt(Env(env, "DB_PORT", Some("3306")).value).Err? ||
                        ConfigParser.ParseInt(Env(env, "DB_POOL_SIZE", Some("10")).value).Err?
    ensures r.Ok? ==> (r.value.charset == "utf8mb4" && r.value.autocommit &&
      r.value.host == Env(env, "DB_HOST", Some("127.0.0.1")).value &&
      r.value.password == Env(env, "DB_PASS", Some("")).value)
  {
    var port := ConfigParser.ParseInt(Env(env, "DB_PORT", Some("3306")).value);
    var size := ConfigParser.ParseInt(Env(env, "DB_POOL_SIZE", Some("10")).value);
    if port.Err? then Err(port.error)
    else if size.Err? then Err(size.error)
    else Ok(DbConfig(Env(env, "DB_HOST", Some("127.0.0.1")).value, port.value,
                     Env(env, "DB_USER", Some("aisus")).value, Env(env, "DB_PASS", Some("")).value,
                     Env(env, "DB_NAME", Some("aisus")).value, "utf8mb4", true, size.value))
  }

  /** With nothing set, the pool talks to a local server on port 3306 with ten connections. */
  lemma DbConfigDefaults()
    ensures GetDbConfig(map[]) == Ok(DbConfig("127.0.0.1", 3306, "aisus", "", "aisus", "utf8mb4", true, 10))
  {
    assert IntToString(3306) == "3306" by {
      assert NatToString(330) == "330";
    }
    assert IntToString(10) == "10";
    ConfigParser.ParseIntRoundTrip(3306);
    ConfigParser.ParseIntRoundTrip(10);
  }

  // ---------------------------------------------------------------- the pool

  /** The module-level `_DB_POOL`; a pool is identified by a number. */
  class Database {
    var pool: Option<nat>

    constructor ()
      ensures pool.None?
    {
      pool := None;
    }

    /** `init_db`: the existing pool when there is one, otherwise the newly `created` one, kept. */
    method InitDb(created: nat) returns (p: nat)
      modifies this
      ensures old(pool).Some? ==> p == old(pool).value && pool == old(pool)
      ensures old(pool).None? ==> p == created && pool == Some(created)
    {
      if pool.Some? {
        return pool.value;
      }
      pool := Some(created);
      p := created;
    }

    /** `close_db`: the pool is dropped, if there was one. */
    method CloseDb()
      modifies this
      ensures pool.None?
    {
      if pool.Some? {
        pool := None;
      }
    }

    /** `get_conn_cursor` creates the pool only when there is none yet. */
    method Acquire(created: nat) returns (p: nat)
      modifies this
      ensures pool == Some(p)
      ensures old(pool).Some? ==> p == old(pool).value
      ensures old(pool).None? ==> p == created
    {
      p := InitDb(created);
    }
  }

  /** Initialising twice yields one pool: the second call returns what the first created. */
  method InitTwice(db: Database, first: nat, second: nat) returns (p1: nat, p2: nat)
    modifies db
    ensures p1 == p2 && db.pool == Some(p1)
  {
    p1 := db.InitDb(first);
    p2 := db.InitDb(second);
  }

  // ---------------------------------------------------------------- SQL scripts

  /** The characters `str.splitlines` breaks on. */
  predicate IsLineBreak(c: char) {
    c == '\n' || c == '\r' || c == '\U{000B}' || c == '\U{000C}' || c == '\U{001C}' || c == '\U{001D}' ||
    c == '\U{001E}' || c == '\U{0085}' || c == '\U{2028}' || c == '\U{2029}'
  }

  /**
   * The text cut at every line break. Unlike `str.splitlines` it also yields the empty pieces next
   * to a "\r\n" pair and at the end; those are blank and dropped by `KeepLine`, so the kept lines agree.
   */
  function Lines(s: string): (r: seq<string>)
    ensures |r| >= 1
    ensures forall k, i :: 0 <= k < |r| && 0 <= i < |r[k]| ==> !IsLineBreak(r[k][i])
    decreases |s|
  {
    if |s| == 0 then [""]
    else
      var rest := Lines(s[1..]);
      if IsLineBreak(s[0]) then [""] + rest
      else
        assert forall i :: 0 <= i < |rest[0]| ==> ([s[0]] + rest[0])[i + 1] == rest[0][i];
        [[s[0]] + rest[0]] + rest[1..]
  }

  /** A line survives unless it is blank or, once stripped, a `--` comment. */
  predicate KeepLine(ln: string) {
    var s := Strip(ln);
    s != "" && !StartsWith(s, "--")
  }

  /** The script with comment and blank lines removed, the rest joined by "\n". */
  function CleanScript(text: string): string {
    Join(Filter(Lines(text), KeepLine), "\n")
  }

  /** The non-empty stripped parts, in order. */
  function Statements(parts: seq<string>): (r: seq<string>)
    ensures |r| <= |parts|
    decreases |parts|
  {
    if |parts| == 0 then []
    else
      var s := Strip(parts[|parts| - 1]);
      Statements(parts[..|parts| - 1]) + (if s != "" then [s] else [])
  }

  /** What `run_sql_script_file` executes for a script text. */
  function ScriptStatements(text: string): seq<string> {
    Statements(Split(CleanScript(text), ';'))
  }

  /**
   * `run_sql_script_file` once the file is read: the cleaning loop, the splitting loop and the
   * execution loop. `fails` says which statements the server rejects; the first rejected one is
   * re-raised, after the ones before it ran, and nothing is committed.
   */
  method RunSqlScript(text: string, fails: string -> bool) returns (statements: seq<string>, ran: seq<string>,
                                                                      committed: bool)
    ensures statements == ScriptStatements(text)
    ensures committed <==> forall k :: 0 <= k < |statements| ==> !fails(statements[k])
    ensures committed ==> ran == statements
    ensures !committed ==> (|ran| < |statements| && ran == statements[..|ran|] && fails(statements[|ran|]))
    ensures forall k :: 0 <= k < |ran| ==> !fails(ran[k])
  {
    var all := Lines(text);
    var lines: seq<string> := [];
    var i := 0;
    while i < |all|
      invariant 0 <= i <= |all|
      invariant lines == Filter(all[..i], KeepLine)
    {
      assert all[..i + 1][..i] == all[..i];
      if KeepLine(all[i]) {
        lines := lines + [all[i]];
      }
      i := i + 1;
    }
    assert all[..i] == all;
    var parts := Split(Join(lines, "\n"), ';');
    statements := [];
    var buff: seq<string> := [];
    var j := 0;
    while j < |parts|
      invariant 0 <= j <= |parts|
      invariant buff == []
      invariant statements == Statements(parts[..j])
    {
      assert parts[..j + 1][..j] == parts[..j];
      buff := buff + [parts[j]];
      var stmt := Strip(Join(buff, ";"));
      if stmt != "" {
        statements := statements + [stmt];
      }
      buff := [];
      j := j + 1;
    }
    assert parts[..j] == parts;
    ran := [];
    var k := 0;
    while k < |statements|
      invariant 0 <= k <= |statements|
      invariant ran == statements[..k]
      invariant forall m :: 0 <= m < k ==> !fails(statements[m])
    {
      if fails(statements[k]) {
        return statements, ran, false;
      }
      ran := ran + [statements[k]];
      k := k + 1;
    }
    committed := true;
  }

  /** No part holds a ';'. */
  predicate SemicolonFree(parts: seq<string>) {
    forall k :: 0 <= k < |parts| ==> ';' !in parts[k]
  }

  /** A statement as the server receives it. */
  predicate WellFormed(stmt: string) {
    stmt != "" && Strip(stmt) == stmt && ';' !in stmt
  }

  /** A stripped piece of a part without ';' is well formed once it is non-empty. */
  lemma StrippedPart(part: string)
    requires ';' !in part && Strip(part) != ""
    ensures WellFormed(Strip(part))
  {
    var s := Strip(part);
    StripIdempotent(part);
    StripShape(part);
    var a, b :| 0 <= a <= b <= |part| && s == part[a..b];
    forall i | 0 <= i < |s|
      ensures s[i] != ';'
    {
      assert s[i] == part[a + i];
      assert part[a + i] in part;
    }
  }

  /** Every statement is non-empty, has no whitespace at its ends and holds no ';'. */
  lemma {:induction false} StatementsWellFormed(parts: seq<string>)
    requires SemicolonFree(parts)
    ensures forall k :: 0 <= k < |Statements(parts)| ==> WellFormed(Statements(parts)[k])
    decreases |parts|
  {
    if |parts| > 0 {
      var init := parts[..|parts| - 1];
      var last := parts[|parts| - 1];
      assert SemicolonFree(init) by {
        forall k | 0 <= k < |init|
          ensures ';' !in init[k]
        {
          assert init[k] == parts[k];
        }
      }
      StatementsWellFormed(init);
      if Strip(last) != "" {
        StrippedPart(last);
      }
    }
  }

  /** The statements of a script are well formed, so none is split further by the server. */
  lemma ScriptStatementsWellFormed(text: string)
    ensures forall k :: 0 <= k < |ScriptStatements(text)| ==> WellFormed(ScriptStatements(text)[k])
  {
    var parts := Split(CleanScript(text), ';');
    SplitPartsFree(CleanScript(text), ';');
    assert SemicolonFree(parts);
    StatementsWellFormed(parts);
  }

  /** The lines kept are exactly the script's non-blank, non-comment lines, none holding a break. */
  lemma KeptLines(text: string)
    ensures var kept := Filter(Lines(text), KeepLine);
      (forall ln :: ln in kept <==> ln in Lines(text) && KeepLine(ln)) &&
      forall k, i :: 0 <= k < |kept| && 0 <= i < |kept[k]| ==> !IsLineBreak(kept[k][i])
  {
    var all := Lines(text);
    var kept := Filter(all, KeepLine);
    FilterMembers(all, KeepLine);
    forall k, i | 0 <= k < |kept| && 0 <= i < |kept[k]|
      ensures !IsLineBreak(kept[k][i])
    {
      assert kept[k] in kept;
      var j :| 0 <= j < |all| && all[j] == kept[k];
    }
  }

  /** A script of nothing but comments and blank lines executes nothing. */
  lemma CommentsOnly(text: string)
    requires forall k :: 0 <= k < |Lines(text)| ==> !KeepLine(Lines(text)[k])
    ensures ScriptStatements(text) == []
  {
    NoneKept(Lines(text), KeepLine);
    assert CleanScript(text) == "";
  }

  /** Stripped parts come out in the order of the parts. */
  lemma {:induction false} StatementsOrder(a: seq<string>, b: seq<string>)
    ensures Statements(a + b) == Statements(a) + Statements(b)
    decreases |b|
  {
    if |b| == 0 {
      assert a + b == a;
    } else {
      StatementsOrder(a, b[..|b| - 1]);
      assert (a + b)[..|a + b| - 1] == a + b[..|b| - 1];
    }
  }
}
