/** Quote escaping for shell command lines and the runtime directory
    layout of the framework (dfms/utils.py). The process environment is a
    map and the user's home directory a parameter; the optional creation of
    the directory is file-system I/O and not part of this model. */
module DfmsUtils {
  import opened Common

  // ---------------------------------------------------------------------
  // escapeQuotes
  // ---------------------------------------------------------------------

  /** Number of occurrences of `c` in `s`. */
  function Count(s: string, c: char): nat
    decreases |s|
  {
    if s == [] then 0 else (if s[0] == c then 1 else 0) + Count(s[1..], c)
  }

  /** `s.replace(c, rep)` for a one-character pattern `c`. */
  function ReplaceChar(s: string, c: char, rep: string): string
    decreases |s|
  {
    if s == [] then [] else (if s[0] == c then rep else [s[0]]) + ReplaceChar(s[1..], c, rep)
  }

  /** What a single quote becomes: close the quote, an escaped quote, reopen. */
  const EscapedSingle: string := "'\\''"
  /** What a double quote becomes. */
  const EscapedDouble: string := "\\\""

  /** escapeQuotes(s, singleQuotes, doubleQuotes): the single-quote pass runs
      first, then the double-quote pass on its output. */
  function EscapeQuotes(s: string, singleQuotes: bool, doubleQuotes: bool): (r: string)
    ensures !singleQuotes && !doubleQuotes ==> r == s
    ensures !singleQuotes ==> Count(r, '\'') == Count(s, '\'')
    ensures !doubleQuotes ==> Count(r, '"') == Count(s, '"')
  {
    var afterSingle := if singleQuotes then ReplaceChar(s, '\'', EscapedSingle) else s;
    if doubleQuotes then
      ReplaceCharKeepsOthers(afterSingle, '"', EscapedDouble, '\'');
      ReplaceChar(afterSingle, '"', EscapedDouble)
    else if singleQuotes then
      ReplaceCharKeepsOthers(s, '\'', EscapedSingle, '"');
      afterSingle
    else afterSingle
  }

  /** Replacing `c` by a text without `d` leaves the number of `d`s alone. */
  lemma {:induction false} ReplaceCharKeepsOthers(s: string, c: char, rep: string, d: char)
    requires c != d && d !in rep
    ensures Count(ReplaceChar(s, c, rep), d) == Count(s, d)
    decreases |s|
  {
    if s != [] {
      ReplaceCharKeepsOthers(s[1..], c, rep, d);
      var head := if s[0] == c then rep else [s[0]];
      CountAppend(head, ReplaceChar(s[1..], c, rep), d);
      if s[0] == c {
        CountAbsent(rep, d);
      } else {
        assert head[1..] == [];
      }
    }
  }

  lemma {:induction false} CountAppend(a: string, b: string, c: char)
    ensures Count(a + b, c) == Count(a, c) + Count(b, c)
    decreases |a|
  {
    if a == [] {
      assert a + b == b;
    } else {
      assert (a + b)[0] == a[0] && (a + b)[1..] == a[1..] + b;
      CountAppend(a[1..], b, c);
    }
  }

  lemma {:induction false} CountAbsent(a: string, c: char)
    requires c !in a
    ensures Count(a, c) == 0
    decreases |a|
  {
    if a != [] { CountAbsent(a[1..], c); }
  }

  /** Each replaced character adds `|rep| - 1` characters. */
  lemma {:induction false} ReplaceCharLength(s: string, c: char, rep: string)
    ensures |ReplaceChar(s, c, rep)| == |s| + (|rep| - 1) * Count(s, c)
    decreases |s|
  {
    if s != [] { ReplaceCharLength(s[1..], c, rep); }
  }

  lemma {:induction false} ReplaceCharAppend(a: string, b: string, c: char, rep: string)
    ensures ReplaceChar(a + b, c, rep) == ReplaceChar(a, c, rep) + ReplaceChar(b, c, rep)
    decreases |a|
  {
    if a == [] {
      assert a + b == b;
    } else {
      assert (a + b)[0] == a[0] && (a + b)[1..] == a[1..] + b;
      ReplaceCharAppend(a[1..], b, c, rep);
    }
  }

  lemma {:induction false} ReplaceCharAbsent(a: string, c: char, rep: string)
    requires c !in a
    ensures ReplaceChar(a, c, rep) == a
    decreases |a|
  {
    if a != [] {
      ReplaceCharAbsent(a[1..], c, rep);
      assert [a[0]] + a[1..] == a;
    }
  }

  /** The per-character reading of the escaping: what each character of the
      input turns into when both passes are on. */
  function EscapeChar(c: char): string
  {
    if c == '\'' then EscapedSingle else if c == '"' then EscapedDouble else [c]
  }

  /** Independent reference: escape character by character. */
  function EscapeEach(s: string): string
    decreases |s|
  {
    if s == [] then [] else EscapeChar(s[0]) + EscapeEach(s[1..])
  }

  /** With both flags on, escaping equals the character-by-character
      reference: every `'` becomes `'\''`, every `"` becomes `\"`, and every
      other character is kept in order. In particular the double-quote
      pass never touches the text the single-quote pass inserted. */
  lemma {:induction false} EscapeQuotesIsPerCharacter(s: string)
    ensures EscapeQuotes(s, true, true) == EscapeEach(s)
    decreases |s|
  {
    if s != [] {
      EscapeQuotesIsPerCharacter(s[1..]);
      var head := if s[0] == '\'' then EscapedSingle else [s[0]];
      var tail := ReplaceChar(s[1..], '\'', EscapedSingle);
      ReplaceCharAppend(head, tail, '"', EscapedDouble);
      if s[0] == '\'' {
        ReplaceCharAbsent(EscapedSingle, '"', EscapedDouble);
      } else {
        assert head == [s[0]];
        assert ReplaceChar(head, '"', EscapedDouble) == EscapeChar(s[0]);
      }
    }
  }

  /** With only the single-quote pass, each `'` becomes `'\''` and every other
      character is kept in order. */
  lemma {:induction false} EscapeSingleOnly(s: string)
    ensures EscapeQuotes(s, true, false) == ReplaceChar(s, '\'', EscapedSingle)
    ensures s != [] && s[0] == '\'' ==> EscapeQuotes(s, true, false)[..4] == EscapedSingle
    ensures s != [] && s[0] != '\'' ==> EscapeQuotes(s, true, false)[0] == s[0]
    ensures |EscapeQuotes(s, true, false)| == |s| + 3 * Count(s, '\'')
  {
    ReplaceCharLength(s, '\'', EscapedSingle);
  }

  /** With only the double-quote pass, each `"` becomes `\"`, every other
      character is kept in order and no single quote is added. */
  lemma {:induction false} EscapeDoubleOnly(s: string)
    ensures EscapeQuotes(s, false, true) == ReplaceChar(s, '"', EscapedDouble)
    ensures s != [] && s[0] == '"' ==> EscapeQuotes(s, false, true)[..2] == EscapedDouble
    ensures s != [] && s[0] != '"' ==> EscapeQuotes(s, false, true)[0] == s[0]
    ensures |EscapeQuotes(s, false, true)| == |s| + Count(s, '"')
    ensures Count(EscapeQuotes(s, false, true), '\'') == Count(s, '\'')
  {
    ReplaceCharLength(s, '"', EscapedDouble);
  }

  /** The length law: |escapeQuotes(s)| = |s| + 3·#' + #". */
  lemma EscapeQuotesLength(s: string)
    ensures |EscapeQuotes(s, true, true)| == |s| + 3 * Count(s, '\'') + Count(s, '"')
  {
    var afterSingle := ReplaceChar(s, '\'', EscapedSingle);
    ReplaceCharLength(s, '\'', EscapedSingle);
    ReplaceCharKeepsOthers(s, '\'', EscapedSingle, '"');
    ReplaceCharLength(afterSingle, '"', EscapedDouble);
  }

  // ---------------------------------------------------------------------
  // getDfmsDir, getDfmsPidDir, getDfmsLogsDir
  // ---------------------------------------------------------------------

  const RuntimeDirVariable: string := "XDG_RUNTIME_DIR"

  /** The runtime root: `<XDG_RUNTIME_DIR>/dfms` when the variable is set,
      otherwise `<home>/.dfms`. */
  function GetDfmsDir(env: map<string, string>, home: string): (r: string)
    ensures RuntimeDirVariable in env ==> NamesEntry(r, env[RuntimeDirVariable], "dfms")
    ensures RuntimeDirVariable !in env ==> NamesEntry(r, home, ".dfms")
  {
    if RuntimeDirVariable in env then
      PathJoinNamesEntry(env[RuntimeDirVariable], "dfms");
      PathJoin(env[RuntimeDirVariable], "dfms")
    else
      PathJoinNamesEntry(home, ".dfms");
      PathJoin(home, ".dfms")
  }

  /** The PID directory `<root>/pid`; the flag only asks for the directory
      to be created and does not change the path. */
  function GetDfmsPidDir(env: map<string, string>, home: string, createIfMissing: bool): (r: string)
    ensures NamesEntry(r, GetDfmsDir(env, home), "pid")
  {
    PathJoinNamesEntry(GetDfmsDir(env, home), "pid");
    PathJoin(GetDfmsDir(env, home), "pid")
  }

  /** The log directory `<root>/logs`; as for the PID directory, the flag
      does not change the path. */
  function GetDfmsLogsDir(env: map<string, string>, home: string, createIfMissing: bool): (r: string)
    ensures NamesEntry(r, GetDfmsDir(env, home), "logs")
  {
    PathJoinNamesEntry(GetDfmsDir(env, home), "logs");
    PathJoin(GetDfmsDir(env, home), "logs")
  }

  /** The PID and log directories are different entries of the same root. */
  lemma PidAndLogsDirsDiffer(env: map<string, string>, home: string, c1: bool, c2: bool)
    ensures GetDfmsPidDir(env, home, c1) != GetDfmsLogsDir(env, home, c2)
  {
    var root := GetDfmsDir(env, home);
    var p := GetDfmsPidDir(env, home, c1);
    var l := GetDfmsLogsDir(env, home, c2);
    assert p[|p| - 1] == 'd' && l[|l| - 1] == 's';
  }
}
