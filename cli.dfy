/** The command-line front end: what it watches, what it runs, and which
    changed paths it runs it for. Option parsing itself is taken as done:
    the parsed arguments are the input. */
module Cli {
  import opened FsEvents

  /** The parsed command line. `dirs` is absent when no positional directory
      was given; `shell` and `task` are absent when not given. */
  datatype Args = Args(
    dirs: Option<seq<string>>,
    literal: seq<string>,
    shell: Option<seq<string>>,
    task: Option<seq<string>>,
    all: bool,
    onCreate: bool,
    onModify: bool,
    onRemove: bool)

  datatype Error = NoExecutions | NoAcceptions

  datatype Result<T> = Ok(value: T) | Err(error: Error)

  /** What `main` settles on before it starts the watchers. */
  datatype Config = Config(
    paths: seq<string>,
    execute: seq<string>,
    all: bool,
    onCreate: bool,
    onModify: bool,
    onRemove: bool)

  /** The checks and lists at the start of `main`: the watched paths, the
      command prefix, and the two errors, the missing command first. */
  method Configure(a: Args) returns (r: Result<Config>)
    ensures a.shell.None? && a.task.None? ==> r == Err(NoExecutions)
    ensures (a.shell.Some? || a.task.Some?) && !(a.onCreate || a.onModify || a.onRemove) ==> r == Err(NoAcceptions)
    ensures r.Ok? <==> (a.shell.Some? || a.task.Some?) && (a.onCreate || a.onModify || a.onRemove)
    ensures r.Ok? ==> r.value.execute == (if a.shell.Some? then a.shell.value else ["deno", "task"] + a.task.value)
    ensures r.Ok? ==> r.value.paths == (if a.dirs.Some? then a.dirs.value else [""]) + a.literal
    ensures r.Ok? ==> r.value.all == a.all && r.value.onCreate == a.onCreate
                      && r.value.onModify == a.onModify && r.value.onRemove == a.onRemove
  {
    var paths := (if a.dirs.Some? then a.dirs.value else [""]) + a.literal;
    var execute: seq<string> := [];
    if a.shell.Some? {
      execute := execute + a.shell.value;
    } else if a.task.Some? {
      execute := execute + ["deno", "task"] + a.task.value;
    } else {
      return Err(NoExecutions);
    }
    if !a.onCreate && !a.onModify && !a.onRemove {
      return Err(NoAcceptions);
    }
    return Ok(Config(paths, execute, a.all, a.onCreate, a.onModify, a.onRemove));
  }

  // ---------------------------------------------------------------------
  // Splitting a path on the separator

  /** `split` on a one-character separator: n separators give n + 1
      pieces, empty ones included. */
  function Split(s: string, sep: char): (r: seq<string>)
    ensures |r| >= 1
    decreases |s|
  {
    if s == [] then [""]
    else
      var rest := Split(s[1..], sep);
      if s[0] == sep then [""] + rest else [[s[0]] + rest[0]] + rest[1..]
  }

  /** The inverse of `Split`: the pieces with the separator between them. */
  function Join(pieces: seq<string>, sep: char): string
    decreases |pieces|
  {
    if |pieces| <= 1 then (if pieces == [] then "" else pieces[0])
    else pieces[0] + [sep] + Join(pieces[1..], sep)
  }

  lemma {:induction false} JoinSplit(s: string, sep: char)
    ensures Join(Split(s, sep), sep) == s
    ensures forall i | 0 <= i < |Split(s, sep)| :: sep !in Split(s, sep)[i]
    decreases |s|
  {
    if s != [] {
      var rest := Split(s[1..], sep);
      JoinSplit(s[1..], sep);
      if s[0] == sep {
        assert Split(s, sep) == [""] + rest;
        assert ([""] + rest)[1..] == rest;
      } else {
        var pieces := [[s[0]] + rest[0]] + rest[1..];
        assert Split(s, sep) == pieces;
        if |rest| == 1 {
          assert Join(rest, sep) == rest[0];
        } else {
          assert pieces[1..] == rest[1..];
          assert Join(rest, sep) == rest[0] + [sep] + Join(rest[1..], sep);
        }
        assert s == [s[0]] + s[1..];
        forall i | 0 <= i < |pieces|
          ensures sep !in pieces[i]
        {
          if i == 0 {
            assert sep !in rest[0];
          } else {
            assert pieces[i] == rest[i];
          }
        }
      }
    }
  }

  // ---------------------------------------------------------------------
  // The path filter of `handle`

  predicate StartsWithDot(s: string) {
    |s| > 0 && s[0] == '.'
  }

  predicate EndsWithTilde(s: string) {
    |s| > 0 && s[|s| - 1] == '~'
  }

  /** Some piece of the path starts with a dot (the `find` finds one). */
  predicate HasDotSegment(path: string, sep: char) {
    exists i | 0 <= i < |Split(path, sep)| :: StartsWithDot(Split(path, sep)[i])
  }

  /** The same condition read off the characters: the path starts with a
      dot, or a separator is directly followed by a dot. */
  predicate DotAfterBoundary(path: string, sep: char) {
    StartsWithDot(path) || exists i | 0 <= i < |path| - 1 :: path[i] == sep && path[i + 1] == '.'
  }

  /** The first piece is a prefix of the string: a first piece starting
      with a dot means the string does. */
  lemma SplitFirstPiece(s: string, sep: char)
    requires StartsWithDot(Split(s, sep)[0])
    ensures StartsWithDot(s)
  {
  }

  /** A string starting with a dot, split on another character, has a
      first piece starting with that dot. */
  lemma SplitStartsLikeString(s: string, sep: char)
    requires sep != '.' && StartsWithDot(s)
    ensures StartsWithDot(Split(s, sep)[0])
  {
  }

  /** A piece after the first that starts with a dot follows a separator
      that is directly followed by a dot. */
  lemma {:induction false} SplitPieceAfterSeparator(s: string, sep: char, i: nat)
    requires 1 <= i < |Split(s, sep)| && StartsWithDot(Split(s, sep)[i])
    ensures exists k | 0 <= k < |s| - 1 :: s[k] == sep && s[k + 1] == '.'
    decreases |s|
  {
    var rest := Split(s[1..], sep);
    if s[0] == sep {
      assert Split(s, sep)[i] == rest[i - 1];
      if i == 1 {
        SplitFirstPiece(s[1..], sep);
        assert s[0] == sep && s[1] == '.';
      } else {
        SplitPieceAfterSeparator(s[1..], sep, i - 1);
        var k :| 0 <= k < |s[1..]| - 1 && s[1..][k] == sep && s[1..][k + 1] == '.';
        assert s[k + 1] == sep && s[k + 2] == '.';
      }
    } else {
      assert Split(s, sep)[i] == rest[i];
      SplitPieceAfterSeparator(s[1..], sep, i);
      var k :| 0 <= k < |s[1..]| - 1 && s[1..][k] == sep && s[1..][k + 1] == '.';
      assert s[k + 1] == sep && s[k + 2] == '.';
    }
  }

  /** A separator directly followed by a dot starts a piece, after the
      first, that begins with that dot. */
  lemma {:induction false} SplitBoundaryPiece(s: string, sep: char, k: nat)
    requires sep != '.'
    requires k < |s| - 1 && s[k] == sep && s[k + 1] == '.'
    ensures exists i | 1 <= i < |Split(s, sep)| :: StartsWithDot(Split(s, sep)[i])
    decreases |s|
  {
    var rest := Split(s[1..], sep);
    if k == 0 {
      assert Split(s, sep) == [""] + rest;
      SplitStartsLikeString(s[1..], sep);
      assert Split(s, sep)[1] == rest[0];
    } else {
      SplitBoundaryPiece(s[1..], sep, k - 1);
      var i :| 1 <= i < |rest| && StartsWithDot(rest[i]);
      if s[0] == sep {
        assert Split(s, sep)[i + 1] == rest[i];
      } else {
        assert Split(s, sep)[i] == rest[i];
      }
    }
  }

  /** The `find` over the pieces finds a dot piece exactly when the path
      starts with a dot or has a separator directly followed by a dot. */
  lemma DotSegmentIsDotAfterBoundary(path: string, sep: char)
    requires sep != '.'
    ensures HasDotSegment(path, sep) <==> DotAfterBoundary(path, sep)
  {
    var pieces := Split(path, sep);
    if HasDotSegment(path, sep) {
      var i :| 0 <= i < |pieces| && StartsWithDot(pieces[i]);
      if i == 0 {
        SplitFirstPiece(path, sep);
      } else {
        SplitPieceAfterSeparator(path, sep, i);
      }
    }
    if DotAfterBoundary(path, sep) {
      if StartsWithDot(path) {
        SplitStartsLikeString(path, sep);
      } else {
        var k :| 0 <= k < |path| - 1 && path[k] == sep && path[k + 1] == '.';
        SplitBoundaryPiece(path, sep, k);
      }
    }
  }

  /** `handle`: the command that runs for a changed path, if any. Without
      `--all`, a path ending in `~` or with a piece starting with a dot is
      skipped. */
  function Handled(c: Config, path: string, sep: char): (r: Option<seq<string>>)
    ensures r.Some? ==> r.value == c.execute + [path]
  {
    if !c.all && EndsWithTilde(path) then None
    else if !c.all && HasDotSegment(path, sep) then None
    else Some(c.execute + [path])
  }

  /** The filter in full: a command runs exactly when `--all` was given, or
      the path neither ends in `~` nor has a separator-split piece that
      starts with a dot, read off its characters; the changed path is the
      command's last argument. */
  lemma HandledRunsExactly(c: Config, path: string, sep: char)
    requires sep != '.'
    ensures Handled(c, path, sep).Some? <==>
      c.all || (!EndsWithTilde(path) && !DotAfterBoundary(path, sep))
    ensures Handled(c, path, sep).Some? ==> Handled(c, path, sep).value[|c.execute|] == path
  {
    DotSegmentIsDotAfterBoundary(path, sep);
  }
}
