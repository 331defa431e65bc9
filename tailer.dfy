/** The byte cursor the monitor keeps into the append-only access log
    (monitoring.py, `last_pos`), and what one poll reads through it. The
    file's content is a string, one character per byte. */
module Tailer {
  import opened Common
  import Text

  function Concat(lines: seq<string>): string {
    if lines == [] then [] else Concat(lines[..|lines| - 1]) + lines[|lines| - 1]
  }

  /** A line as `readlines` yields it: non-empty, with `\n` only as its last character. */
  predicate IsLine(l: string) {
    l != [] && forall k :: 0 <= k < |l| - 1 ==> l[k] != '\n'
  }

  /** `readlines`: the text cut after every `\n`; the last line may lack one. */
  function SplitLines(s: string): (lines: seq<string>)
    decreases |s|
    ensures forall i :: 0 <= i < |lines| ==> IsLine(lines[i])
    ensures forall i :: 0 <= i < |lines| - 1 ==> |lines[i]| > 0 && lines[i][|lines[i]| - 1] == '\n'
  {
    if s == [] then []
    else match Text.Find(s, "\n", 0)
      case None =>
        assert forall k :: 0 <= k < |s| ==> s[k] != '\n' by {
          forall k | 0 <= k < |s| ensures s[k] != '\n' {
            assert !Text.IsAt(s, "\n", k);
          }
        }
        [s]
      case Some(n) =>
        assert Text.IsAt(s, "\n", n) && s[n] == '\n';
        assert forall k :: 0 <= k < n ==> s[k] != '\n' by {
          forall k | 0 <= k < n ensures s[k] != '\n' {
            assert !Text.IsAt(s, "\n", k);
          }
        }
        [s[..n + 1]] + SplitLines(s[n + 1..])
  }

  lemma {:induction false} ConcatPrepend(l: string, lines: seq<string>)
    ensures Concat([l] + lines) == l + Concat(lines)
    decreases |lines|
  {
    if lines != [] {
      var all := [l] + lines;
      assert all[..|all| - 1] == [l] + lines[..|lines| - 1];
      ConcatPrepend(l, lines[..|lines| - 1]);
    } else {
      assert [l] + lines == [l];
      assert [l][..0] == [];
    }
  }

  /** Where the first line of a non-empty text ends: just past its first `\n`,
      or the end of the text. */
  function LineEnd(s: string): (e: nat)
    requires s != []
    ensures 0 < e <= |s|
  {
    match Text.Find(s, "\n", 0)
    case None => |s|
    case Some(n) => n + 1
  }

  lemma SplitLinesCut(s: string)
    requires s != []
    ensures SplitLines(s) == [s[..LineEnd(s)]] + SplitLines(s[LineEnd(s)..])
  {
    match Text.Find(s, "\n", 0)
    case None =>
      assert s[LineEnd(s)..] == [] && s[..LineEnd(s)] == s;
    case Some(n) =>
  }

  /** Reading the lines back together gives exactly the text they were cut from. */
  lemma {:induction false} SplitLinesConcat(s: string)
    ensures Concat(SplitLines(s)) == s
    decreases |s|
  {
    if s != [] {
      var e := LineEnd(s);
      SplitLinesCut(s);
      SplitLinesConcat(s[e..]);
      ConcatCut(s, e, SplitLines(s[e..]));
    }
  }

  lemma ConcatCut(s: string, e: nat, rest: seq<string>)
    requires e <= |s| && Concat(rest) == s[e..]
    ensures Concat([s[..e]] + rest) == s
  {
    ConcatPrepend(s[..e], rest);
    assert s[..e] + s[e..] == s;
  }

  lemma SplitLinesEmpty(s: string)
    ensures SplitLines(s) == [] <==> s == []
  {
  }

  /** A line ending in `\n` at the front of a text is the first line `readlines` yields. */
  lemma LineThen(l: string, rest: string)
    requires IsLine(l) && l[|l| - 1] == '\n'
    ensures SplitLines(l + rest) == [l] + SplitLines(rest)
  {
    var s := l + rest;
    forall j: nat | j < |l| - 1 ensures !Text.IsAt(s, "\n", j) {
      assert s[j] == l[j] != '\n';
    }
    assert s[|l| - 1..|l|] == "\n";
    Text.FindSome(s, "\n", |l| - 1);
    assert s[..|l|] == l && s[|l|..] == rest;
  }

  /** The cursor at startup: end-of-file, or 0 when there is no log file yet. */
  function InitialCursor(file: Option<string>): (cursor: nat)
    ensures file.Some? ==> cursor == |file.value|
    ensures file.None? ==> cursor == 0
  {
    match file
    case None => 0
    case Some(content) => |content|
  }

  datatype PollResult = PollResult(lines: seq<string>, cursor: nat)

  /** `f.seek(last_pos); f.readlines(); f.tell()`. A cursor beyond the end of the
      file (a truncated log) reads nothing and stays where it is. */
  function Poll(content: string, cursor: nat): (r: PollResult)
    ensures cursor <= r.cursor
    ensures cursor <= |content| ==> r.cursor == |content| && Concat(r.lines) == content[cursor..]
    ensures cursor > |content| ==> r == PollResult([], cursor)
  {
    if cursor <= |content| then
      SplitLinesConcat(content[cursor..]);
      PollResult(SplitLines(content[cursor..]), |content|)
    else PollResult([], cursor)
  }

  /** Text written before the cursor is never read again: after a poll, the
      next poll of a grown file returns exactly the lines of what was appended. */
  lemma PollAfterAppend(content: string, extra: string, cursor: nat)
    requires cursor <= |content|
    ensures var first := Poll(content, cursor);
            Poll(content + extra, first.cursor) == PollResult(SplitLines(extra), |content| + |extra|)
  {
    assert (content + extra)[|content|..] == extra;
  }

  /** Successive polls over a sequence of snapshots of the file: the text read, and the final cursor. */
  function ReadAll(cursor: nat, snapshots: seq<string>): (string, nat)
  {
    if snapshots == [] then ([], cursor)
    else
      var before := ReadAll(cursor, snapshots[..|snapshots| - 1]);
      var p := Poll(snapshots[|snapshots| - 1], before.1);
      (before.0 + Concat(p.lines), p.cursor)
  }

  predicate IsPrefix(a: string, b: string) {
    |a| <= |b| && b[..|a|] == a
  }

  /** While the file only grows, polling from the startup cursor reads every byte
      appended after startup exactly once, in order, and nothing written before. */
  lemma {:induction false} ReadAllAppendOnly(initial: string, snapshots: seq<string>)
    requires snapshots != []
    requires IsPrefix(initial, snapshots[0])
    requires forall i :: 0 < i < |snapshots| ==> IsPrefix(snapshots[i - 1], snapshots[i])
    ensures var last := snapshots[|snapshots| - 1];
      |initial| <= |last| && ReadAll(|initial|, snapshots) == (last[|initial|..], |last|)
    decreases |snapshots|
  {
    var n := |snapshots|;
    var last := snapshots[n - 1];
    if n == 1 {
      assert snapshots[..0] == [];
      assert ReadAll(|initial|, snapshots[..0]) == ([], |initial|);
      var p := Poll(last, |initial|);
      assert ReadAll(|initial|, snapshots) == ([] + Concat(p.lines), p.cursor);
      assert [] + Concat(p.lines) == last[|initial|..];
    } else {
      var front := snapshots[..n - 1];
      ReadAllAppendOnly(initial, front);
      var prev := front[n - 2];
      assert IsPrefix(prev, last);
      PrefixChain(initial, snapshots, n - 2);
      JoinSuffixes(|initial|, prev, last);
    }
  }

  lemma JoinSuffixes(k: nat, prev: string, last: string)
    requires k <= |prev| && IsPrefix(prev, last)
    ensures last[k..] == prev[k..] + last[|prev|..]
  {
    assert last == prev + last[|prev|..];
  }

  lemma {:induction false} PrefixChain(initial: string, snapshots: seq<string>, i: nat)
    requires i < |snapshots|
    requires IsPrefix(initial, snapshots[0])
    requires forall k :: 0 < k < |snapshots| ==> IsPrefix(snapshots[k - 1], snapshots[k])
    ensures IsPrefix(initial, snapshots[i])
  {
    if i > 0 {
      PrefixChain(initial, snapshots, i - 1);
      assert IsPrefix(snapshots[i - 1], snapshots[i]);
      assert snapshots[i][..|initial|] == snapshots[i][..|snapshots[i - 1]|][..|initial|];
    }
  }
}
