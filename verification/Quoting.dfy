/** Quoting one argument for a Windows command line, against the documented
    argument rules of CommandLineToArgvW. */
module Quoting {

  const BACKSLASH: char := '\\'
  const QUOTE: char := '\"'
  const SPACE: char := ' '
  const TAB: char := '\t'

  function Slashes(n: nat): (s: string)
    ensures |s| == n
  {
    seq(n, _ => BACKSLASH)
  }

  // ---------------------------------------------------------------------
  // The documented rules
  // ---------------------------------------------------------------------

  predicate IsSeparator(c: char) {
    c == SPACE || c == TAB
  }

  /** Read one argument from the start of s; `quoted` says whether we are between
      quotes and `run` counts the backslashes read just before s. Backslashes are
      literal unless a quote follows them: then every pair gives one backslash, and
      an odd one makes the quote literal. With `doubled`, two quotes in a row inside
      quotes also give a literal quote, as the Microsoft C runtime reads them. */
  function ReadArg(s: string, quoted: bool, run: nat, doubled: bool): (r: (string, string))
    ensures |r.1| <= |s|
    decreases |s|
  {
    if |s| == 0 then (Slashes(run), "")
    else if s[0] == BACKSLASH then ReadArg(s[1..], quoted, run + 1, doubled)
    else if s[0] == QUOTE then
      if run % 2 == 1 then Prefixed(Slashes(run / 2) + [QUOTE], ReadArg(s[1..], quoted, 0, doubled))
      else if doubled && quoted && |s| > 1 && s[1] == QUOTE then
        Prefixed(Slashes(run / 2) + [QUOTE], ReadArg(s[2..], quoted, 0, doubled))
      else Prefixed(Slashes(run / 2), ReadArg(s[1..], !quoted, 0, doubled))
    else if !quoted && IsSeparator(s[0]) then (Slashes(run), s)
    else Prefixed(Slashes(run) + [s[0]], ReadArg(s[1..], quoted, 0, doubled))
  }

  function Prefixed(front: string, r: (string, string)): (string, string) {
    (front + r.0, r.1)
  }

  /** Split a command line into its arguments. */
  function SplitArgs(s: string, doubled: bool): seq<string>
    decreases |s|
  {
    if |s| == 0 then []
    else if IsSeparator(s[0]) then SplitArgs(s[1..], doubled)
    else
      var (arg, rest) := ReadArg(s, false, 0, doubled);
      if |rest| < |s| then [arg] + SplitArgs(rest, doubled) else [arg]
  }

  // ---------------------------------------------------------------------
  // The quoter
  // ---------------------------------------------------------------------

  predicate NeedsQuotes(c: char) {
    c == ' ' || c == '\t' || c == '\n' || c == '\U{000B}' || c == QUOTE
  }

  predicate Bare(arg: string) {
    |arg| > 0 && forall i :: 0 <= i < |arg| ==> !NeedsQuotes(arg[i])
  }

  /** The escaped text between the quotes; `run` counts the backslashes not emitted yet. */
  function Escaped(arg: string, run: nat): string
    decreases |arg|
  {
    if |arg| == 0 then Slashes(2 * run)
    else if arg[0] == BACKSLASH then Escaped(arg[1..], run + 1)
    else if arg[0] == QUOTE then Slashes(2 * run + 1) + [QUOTE] + Escaped(arg[1..], 0)
    else Slashes(run) + [arg[0]] + Escaped(arg[1..], 0)
  }

  function Quoted(arg: string): string {
    if Bare(arg) then arg else [QUOTE] + Escaped(arg, 0) + [QUOTE]
  }

  method HasSpecial(arg: string) returns (special: bool)
    ensures special <==> !Bare(arg)
  {
    special := |arg| == 0;
    for i := 0 to |arg|
      invariant special <==> |arg| == 0 || exists j :: 0 <= j < i && NeedsQuotes(arg[j])
    {
      if NeedsQuotes(arg[i]) {
        special := true;
      }
    }
  }

  lemma Assoc(a: string, b: string, c: string, d: string)
    ensures a + b + c + d == a + (b + c + d)
  {
  }

  /** The quoter as it runs: consume the argument, emit each run of backslashes
      once it is known what follows it. */
  method QuoteArg(arg: string) returns (result: string)
    ensures result == Quoted(arg)
    ensures if |arg| > 0 && (forall i :: 0 <= i < |arg| ==> arg[i] !in {' ', '\t', '\n', '\U{000B}', '"'}) then
              result == arg
            else |result| > 0 && result[0] == '"'
  {
    var special := HasSpecial(arg);
    if !special {
      return arg;
    }
    result := [QUOTE];
    var at := 0;
    ghost var all := [QUOTE] + Escaped(arg, 0);
    assert arg[0..] == arg;
    while true
      invariant 0 <= at <= |arg|
      invariant result + Escaped(arg[at..], 0) == all
      decreases |arg| - at
    {
      var backslashes := 0;
      ghost var from := at;
      while at < |arg| && arg[at] == BACKSLASH
        invariant from <= at <= |arg| && (at == from ==> backslashes == 0)
        invariant result + Escaped(arg[at..], backslashes) == all
      {
        assert arg[at..][1..] == arg[at + 1..];
        at := at + 1;
        backslashes := backslashes + 1;
      }
      if at == |arg| {
        return result + Slashes(backslashes * 2) + [QUOTE];
      }
      var c := arg[at];
      assert arg[at..][1..] == arg[at + 1..];
      var run := Slashes(if c == QUOTE then backslashes * 2 + 1 else backslashes);
      Assoc(result, run, [c], Escaped(arg[at + 1..], 0));
      result := result + run + [c];
      at := at + 1;
    }
  }

  // ---------------------------------------------------------------------
  // The round trip
  // ---------------------------------------------------------------------

  /** Reading n backslashes first only adds to the pending run. */
  lemma {:induction false} ReadSlashes(n: nat, tail: string, quoted: bool, run: nat, doubled: bool)
    ensures ReadArg(Slashes(n) + tail, quoted, run, doubled) == ReadArg(tail, quoted, run + n, doubled)
  {
    var s := Slashes(n) + tail;
    if n == 0 {
      assert s == tail;
    } else {
      assert s[1..] == Slashes(n - 1) + tail;
      ReadSlashes(n - 1, tail, quoted, run + 1, doubled);
    }
  }

  /** What may follow an argument on the command line. */
  predicate AtEnd(rest: string) {
    |rest| == 0 || IsSeparator(rest[0])
  }

  /** The closing quote ends the quoted part, and the argument with it. */
  lemma ReadClosing(run: nat, rest: string, doubled: bool)
    requires AtEnd(rest)
    ensures ReadArg([QUOTE] + rest, true, 2 * run, doubled) == (Slashes(run), rest)
  {
    var s := [QUOTE] + rest;
    assert s[1..] == rest;
    assert ReadArg(rest, false, 0, doubled) == (Slashes(0), rest);
    assert Slashes(run) + Slashes(0) == Slashes(run);
  }

  lemma ReadEscapedQuote(run: nat, tail: string, doubled: bool)
    ensures ReadArg([QUOTE] + tail, true, 2 * run + 1, doubled)
            == Prefixed(Slashes(run) + [QUOTE], ReadArg(tail, true, 0, doubled))
  {
    assert ([QUOTE] + tail)[1..] == tail;
  }

  lemma ReadPlain(c: char, run: nat, tail: string, doubled: bool)
    requires c != QUOTE && c != BACKSLASH
    ensures ReadArg([c] + tail, true, run, doubled) == Prefixed(Slashes(run) + [c], ReadArg(tail, true, 0, doubled))
  {
    assert ([c] + tail)[1..] == tail;
  }

  lemma Regroup(a: string, b: string, c: string, d: string, e: string)
    ensures a + b + c + d + e == a + (b + (c + d + e))
  {
  }

  lemma OneMoreSlash(run: nat, arg: string)
    requires |arg| > 0 && arg[0] == BACKSLASH
    ensures Slashes(run + 1) + arg[1..] == Slashes(run) + arg
  {
  }

  lemma HeadTail(front: string, arg: string)
    requires |arg| > 0
    ensures front + [arg[0]] + arg[1..] == front + arg
  {
  }

  /** Reading the escaped text up to its closing quote gives the argument back,
      with the backslashes that were still pending in front of it. */
  lemma {:induction false} ReadEscaped(arg: string, run: nat, rest: string, doubled: bool)
    requires AtEnd(rest)
    ensures ReadArg(Escaped(arg, run) + [QUOTE] + rest, true, 0, doubled) == (Slashes(run) + arg, rest)
    decreases |arg|
  {
    if |arg| == 0 {
      ReadClosing(run, rest, doubled);
      ReadSlashes(2 * run, [QUOTE] + rest, true, 0, doubled);
      assert Escaped(arg, run) + [QUOTE] + rest == Slashes(2 * run) + ([QUOTE] + rest);
      assert Slashes(run) + arg == Slashes(run);
    } else if arg[0] == BACKSLASH {
      ReadEscaped(arg[1..], run + 1, rest, doubled);
      OneMoreSlash(run, arg);
    } else {
      ReadEscaped(arg[1..], 0, rest, doubled);
      assert Slashes(0) + arg[1..] == arg[1..];
      ReadEscapedChar(arg, run, Escaped(arg[1..], 0), rest, doubled);
    }
  }

  lemma ReadEscapedChar(arg: string, run: nat, escaped: string, rest: string, doubled: bool)
    requires |arg| > 0 && arg[0] != BACKSLASH
    requires ReadArg(escaped + [QUOTE] + rest, true, 0, doubled) == (arg[1..], rest)
    ensures ReadArg(Slashes(if arg[0] == QUOTE then 2 * run + 1 else run) + [arg[0]] + escaped + [QUOTE] + rest,
                    true, 0, doubled)
            == (Slashes(run) + arg, rest)
  {
    var n := if arg[0] == QUOTE then 2 * run + 1 else run;
    var tail := escaped + [QUOTE] + rest;
    Regroup(Slashes(n), [arg[0]], escaped, [QUOTE], rest);
    ReadSlashes(n, [arg[0]] + tail, true, 0, doubled);
    HeadTail(Slashes(run), arg);
    if arg[0] == QUOTE {
      ReadEscapedQuote(run, tail, doubled);
    } else {
      ReadPlain(arg[0], run, tail, doubled);
    }
  }

  lemma {:induction false} ReadBare(arg: string, run: nat, rest: string, doubled: bool)
    requires AtEnd(rest) && forall i :: 0 <= i < |arg| ==> !NeedsQuotes(arg[i])
    ensures ReadArg(arg + rest, false, run, doubled) == (Slashes(run) + arg, rest)
    decreases |arg|
  {
    if |arg| == 0 {
      assert arg + rest == rest;
      assert Slashes(run) + arg == Slashes(run);
    } else {
      assert (arg + rest)[1..] == arg[1..] + rest;
      if arg[0] == BACKSLASH {
        ReadBare(arg[1..], run + 1, rest, doubled);
        OneMoreSlash(run, arg);
      } else {
        ReadBare(arg[1..], 0, rest, doubled);
        assert Slashes(0) + arg[1..] == arg[1..];
        HeadTail(Slashes(run), arg);
      }
    }
  }

  lemma ReadOpening(body: string, doubled: bool)
    ensures ReadArg([QUOTE] + body, false, 0, doubled) == ReadArg(body, true, 0, doubled)
  {
    assert ([QUOTE] + body)[1..] == body;
    var r := ReadArg(body, true, 0, doubled);
    assert Slashes(0) + r.0 == r.0;
  }

  lemma ReadQuoted(arg: string, rest: string, doubled: bool)
    requires AtEnd(rest)
    ensures ReadArg(Quoted(arg) + rest, false, 0, doubled) == (arg, rest)
    ensures |Quoted(arg)| > 0 && !IsSeparator(Quoted(arg)[0])
  {
    assert Slashes(0) + arg == arg;
    if Bare(arg) {
      ReadBare(arg, 0, rest, doubled);
    } else {
      Assoc([QUOTE], Escaped(arg, 0), [QUOTE], rest);
      ReadEscaped(arg, 0, rest, doubled);
      ReadOpening(Escaped(arg, 0) + [QUOTE] + rest, doubled);
    }
  }

  function CommandLine(args: seq<string>): string {
    if |args| == 0 then ""
    else if |args| == 1 then Quoted(args[0])
    else Quoted(args[0]) + [SPACE] + CommandLine(args[1..])
  }

  /** For every list of arguments, splitting the space-joined quoted arguments
      gives the list back, whichever way doubled quotes are read. */
  lemma {:induction false} QuotingRoundTrip(args: seq<string>, doubled: bool)
    ensures SplitArgs(CommandLine(args), doubled) == args
    decreases |args|
  {
    if |args| == 1 {
      ReadQuoted(args[0], "", doubled);
      assert Quoted(args[0]) + "" == Quoted(args[0]);
    } else if |args| > 1 {
      var rest := [SPACE] + CommandLine(args[1..]);
      ReadQuoted(args[0], rest, doubled);
      QuotingRoundTrip(args[1..], doubled);
      assert CommandLine(args) == Quoted(args[0]) + rest;
      assert rest[1..] == CommandLine(args[1..]);
      assert SplitArgs(rest, doubled) == args[1..];
    }
  }
}
