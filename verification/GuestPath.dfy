/** Canonical guest paths: relative to the root, components separated by single
    slashes, no `.` or `..`, no Windows prefix. Paths are their UTF-8 bytes. */
module GuestPath {
  import opened Common
  import opened Text

  const SLASH: byte := 47
  const BACKSLASH: byte := 92
  const COLON: byte := 58
  const DOT: seq<byte> := [46]
  const DOTDOT: seq<byte> := [46, 46]
  const U32_MAX: nat := 0xFFFF_FFFF

  datatype Fault = NulByte | WindowsPrefix | EmptyTerminalName | EmptyComponent | ParentTraversal | TooLong

  datatype Outcome = Path(path: seq<byte>) | Invalid(reason: Fault)

  function Slashed(raw: seq<byte>): (s: seq<byte>)
    ensures |s| == |raw| && BACKSLASH !in s
    ensures 0 !in raw ==> 0 !in s
  {
    seq(|raw|, i requires 0 <= i < |raw| => if raw[i] == BACKSLASH then SLASH else raw[i])
  }

  function TrimFront(s: seq<byte>): (t: seq<byte>)
    ensures forall x :: x !in s ==> x !in t
  {
    if |s| > 0 && s[0] == SLASH then TrimFront(s[1..]) else s
  }

  predicate IsAlphabetic(b: byte) {
    65 <= b <= 90 || 97 <= b <= 122
  }

  predicate IsDrive(component: seq<byte>) {
    |component| >= 2 && component[1] == COLON && IsAlphabetic(component[0])
  }

  /** The first component that is neither empty nor `.`, or the empty string. */
  function FirstNamed(parts: seq<seq<byte>>): seq<byte> {
    if |parts| == 0 then []
    else if parts[0] != [] && parts[0] != DOT then parts[0]
    else FirstNamed(parts[1..])
  }

  /** The first fault of the components from index i on. */
  function FaultFrom(parts: seq<seq<byte>>, i: nat): Option<Fault>
    requires i <= |parts|
    decreases |parts| - i
  {
    if i == |parts| then None
    else if parts[i] == [] then Some(if i + 1 == |parts| then EmptyTerminalName else EmptyComponent)
    else if parts[i] == DOTDOT then Some(ParentTraversal)
    else FaultFrom(parts, i + 1)
  }

  function Named(parts: seq<seq<byte>>): (names: seq<seq<byte>>)
    ensures forall c :: c in names <==> c in parts && c != DOT
  {
    if |parts| == 0 then []
    else
      var init, last := parts[..|parts| - 1], parts[|parts| - 1];
      assert parts == init + [last];
      Named(init) + if last == DOT then [] else [last]
  }

  /** What a raw path denotes. */
  function Denoted(raw: seq<byte>): Outcome {
    if 0 in raw then Invalid(NulByte)
    else if [SLASH, SLASH] <= Slashed(raw) then Invalid(WindowsPrefix)
    else
      var trimmed := TrimFront(Slashed(raw));
      if |trimmed| == 0 then Invalid(EmptyTerminalName) else Checked(Split(trimmed, SLASH))
  }

  function Checked(parts: seq<seq<byte>>): Outcome {
    if IsDrive(FirstNamed(parts)) then Invalid(WindowsPrefix)
    else if FaultFrom(parts, 0).Some? then Invalid(FaultFrom(parts, 0).value)
    else Joined(Named(parts))
  }

  function Joined(names: seq<seq<byte>>): Outcome {
    if |names| == 0 then Invalid(EmptyTerminalName)
    else
      var canonical := Join(names, SLASH);
      if |canonical| >= U32_MAX then Invalid(TooLong) else Path(canonical)
  }

  /** Walk the components of a raw path, keeping the names. */
  method Parse(raw: seq<byte>) returns (r: Outcome)
    ensures r == Denoted(raw)
  {
    if 0 in raw {
      return Invalid(NulByte);
    }
    var normalized := Slashed(raw);
    if [SLASH, SLASH] <= normalized {
      return Invalid(WindowsPrefix);
    }
    var trimmed := TrimFront(normalized);
    if |trimmed| == 0 {
      return Invalid(EmptyTerminalName);
    }
    var parts := Split(trimmed, SLASH);
    if IsDrive(FirstNamed(parts)) {
      return Invalid(WindowsPrefix);
    }
    var components: seq<seq<byte>> := [];
    for i := 0 to |parts|
      invariant FaultFrom(parts, 0) == FaultFrom(parts, i)
      invariant components == Named(parts[..i])
    {
      assert parts[..i + 1][..i] == parts[..i];
      if parts[i] == [] {
        return Invalid(if i + 1 == |parts| then EmptyTerminalName else EmptyComponent);
      }
      if parts[i] == DOTDOT {
        return Invalid(ParentTraversal);
      }
      if parts[i] != DOT {
        components := components + [parts[i]];
      }
    }
    assert parts[..|parts|] == parts;
    if |components| == 0 {
      return Invalid(EmptyTerminalName);
    }
    var canonical := Join(components, SLASH);
    if |canonical| >= U32_MAX {
      return Invalid(TooLong);
    }
    return Path(canonical);
  }

  // ---------------------------------------------------------------------
  // Canonical paths
  // ---------------------------------------------------------------------

  predicate IsName(component: seq<byte>) {
    component != [] && component != DOT && component != DOTDOT
  }

  predicate Canonical(path: seq<byte>) {
    var parts := Split(path, SLASH);
    && |path| < U32_MAX && 0 !in path && BACKSLASH !in path
    && (forall i :: 0 <= i < |parts| ==> IsName(parts[i]))
    && !IsDrive(parts[0])
  }

  lemma {:induction false} SplitMembers(s: seq<byte>, x: byte)
    requires x !in s
    ensures forall part :: part in Split(s, SLASH) ==> x !in part
    decreases |s|
  {
    if SLASH in s {
      SplitMembers(s[IndexOf(s, SLASH) + 1..], x);
    }
  }

  lemma {:induction false} NoFault(parts: seq<seq<byte>>, i: nat)
    requires i <= |parts|
    ensures FaultFrom(parts, i).None? <==> forall k :: i <= k < |parts| ==> parts[k] != [] && parts[k] != DOTDOT
    decreases |parts| - i
  {
    if i < |parts| {
      NoFault(parts, i + 1);
    }
  }

  lemma {:induction false} NamedIsAll(parts: seq<seq<byte>>)
    requires DOT !in parts
    ensures Named(parts) == parts
  {
    if |parts| > 0 {
      NamedIsAll(parts[..|parts| - 1]);
    }
  }

  lemma {:induction false} NamedConcat(a: seq<seq<byte>>, b: seq<seq<byte>>)
    ensures Named(a + b) == Named(a) + Named(b)
    decreases |b|
  {
    if |b| == 0 {
      assert a + b == a;
    } else {
      assert (a + b)[..|a + b| - 1] == a + b[..|b| - 1];
      NamedConcat(a, b[..|b| - 1]);
    }
  }

  lemma {:induction false} FirstNamedIsFirst(parts: seq<seq<byte>>)
    requires [] !in parts && |Named(parts)| > 0
    ensures FirstNamed(parts) == Named(parts)[0]
  {
    assert parts == [parts[0]] + parts[1..];
    NamedConcat([parts[0]], parts[1..]);
    assert Named([parts[0]]) == if parts[0] == DOT then [] else [parts[0]];
    if parts[0] == DOT {
      FirstNamedIsFirst(parts[1..]);
    }
  }

  function Components(raw: seq<byte>): seq<seq<byte>> {
    Split(TrimFront(Slashed(raw)), SLASH)
  }

  lemma NamedSome(parts: seq<seq<byte>>)
    ensures |Named(parts)| > 0 <==> exists c :: c in parts && c != DOT
  {
    assert |Named(parts)| > 0 ==> Named(parts)[0] in Named(parts);
    assert forall c :: c in Named(parts) ==> |Named(parts)| > 0;
  }

  lemma CheckedWhen(parts: seq<seq<byte>>)
    ensures Checked(parts).Path? <==>
            && (forall c :: c in parts ==> c != [] && c != DOTDOT)
            && (exists c :: c in parts && c != DOT)
            && !IsDrive(FirstNamed(parts))
            && |Join(Named(parts), SLASH)| < U32_MAX
  {
    NoFault(parts, 0);
    NamedSome(parts);
    assert forall i :: 0 <= i < |parts| ==> parts[i] in parts;
  }

  /** Exactly which raw paths are accepted. */
  lemma AcceptedWhen(raw: seq<byte>)
    ensures Denoted(raw).Path? <==>
            && 0 !in raw
            && !([SLASH, SLASH] <= Slashed(raw))
            && (forall c :: c in Components(raw) ==> c != [] && c != DOTDOT)
            && (exists c :: c in Components(raw) && c != DOT)
            && !IsDrive(FirstNamed(Components(raw)))
            && |Join(Named(Components(raw)), SLASH)| < U32_MAX
  {
    CheckedWhen(Components(raw));
    if |TrimFront(Slashed(raw))| == 0 {
      assert Components(raw)[0] == [];
    }
  }

  /** Whatever is accepted denotes a canonical path: its components but for the dots. */
  lemma DenotedIsCanonical(raw: seq<byte>)
    requires Denoted(raw).Path?
    ensures Canonical(Denoted(raw).path)
    ensures Split(Denoted(raw).path, SLASH) == Named(Components(raw))
  {
    var trimmed := TrimFront(Slashed(raw));
    var parts := Split(trimmed, SLASH);
    var names := Named(parts);
    NoFault(parts, 0);
    SplitMembers(trimmed, 0);
    SplitMembers(trimmed, BACKSLASH);
    assert forall i :: 0 <= i < |names| ==> names[i] in parts && IsName(names[i]);
    JoinMembers(names, SLASH, 0);
    JoinMembers(names, SLASH, BACKSLASH);
    SplitOfJoin(names, SLASH);
    FirstNamedIsFirst(parts);
  }

  lemma NamesAreChecked(parts: seq<seq<byte>>)
    requires |parts| > 0 && (forall i :: 0 <= i < |parts| ==> IsName(parts[i])) && !IsDrive(parts[0])
    ensures Checked(parts) == Joined(parts)
  {
    NoFault(parts, 0);
    NamedIsAll(parts);
  }

  lemma CanonicalStart(path: seq<byte>)
    requires Canonical(path)
    ensures Slashed(path) == path && |path| > 0 && path[0] != SLASH
  {
    var parts := Split(path, SLASH);
    JoinOfSplit(path, SLASH);
    assert IsName(parts[0]) && SLASH !in parts[0];
    assert path[0] == parts[0][0];
  }

  /** A canonical path denotes itself: the canonical paths are the fixed points of parsing. */
  lemma CanonicalDenotesItself(path: seq<byte>)
    requires Canonical(path)
    ensures Denoted(path) == Path(path)
  {
    CanonicalStart(path);
    NamesAreChecked(Split(path, SLASH));
    JoinOfSplit(path, SLASH);
  }

  // ---------------------------------------------------------------------
  // How paths are written
  // ---------------------------------------------------------------------

  /** The raw path consists of these components, with a slash or a backslash between each
      two and perhaps one in front. */
  predicate WrittenAs(raw: seq<byte>, rooted: bool, components: seq<seq<byte>>) {
    && 0 !in raw && |components| > 0
    && (forall i :: 0 <= i < |components| ==>
          components[i] != [] && components[i] != [46, 46] && 47 !in components[i] && 92 !in components[i])
    && var text := (if rooted then [47] else []) + Join(components, 47);
       |raw| == |text| && forall i :: 0 <= i < |raw| ==> text[i] == if raw[i] == 92 then 47 else raw[i]
  }

  /** A drive letter and a colon. */
  predicate BeginsWithDrive(name: seq<byte>) {
    |name| >= 2 && (65 <= name[0] <= 90 || 97 <= name[0] <= 122) && name[1] == 58
  }

  /** What components name: all of them but the dots, joined by slashes. */
  predicate Names(components: seq<seq<byte>>, path: seq<byte>) {
    var names := Named(components);
    |names| > 0 && !BeginsWithDrive(names[0]) && path == Join(names, 47) && |path| < 0xFFFF_FFFF
  }

  lemma TrimOnce(s: seq<byte>)
    requires !([SLASH, SLASH] <= s)
    ensures s == (if |s| > 0 && s[0] == SLASH then [SLASH] else []) + TrimFront(s)
  {
    if |s| > 1 && s[0] == SLASH {
      assert s[..2] == [s[0], s[1]];
    }
  }

  lemma AcceptedIsWritten(raw: seq<byte>) returns (rooted: bool, components: seq<seq<byte>>)
    requires Denoted(raw).Path?
    ensures WrittenAs(raw, rooted, components) && Names(components, Denoted(raw).path)
  {
    AcceptedWhen(raw);
    var s := Slashed(raw);
    rooted, components := |s| > 0 && s[0] == SLASH, Components(raw);
    TrimOnce(s);
    SplitIsWritten(raw, rooted, TrimFront(s));
    NamedSome(components);
    FirstNamedIsFirst(components);
    DenotedJoins(raw);
  }

  lemma DenotedJoins(raw: seq<byte>)
    requires Denoted(raw).Path?
    ensures Denoted(raw).path == Join(Named(Components(raw)), SLASH) && |Denoted(raw).path| < U32_MAX
  {
  }

  lemma SplitIsWritten(raw: seq<byte>, rooted: bool, trimmed: seq<byte>)
    requires 0 !in raw && BACKSLASH !in trimmed && Slashed(raw) == (if rooted then [SLASH] else []) + trimmed
    requires forall c :: c in Split(trimmed, SLASH) ==> c != [] && c != DOTDOT
    ensures WrittenAs(raw, rooted, Split(trimmed, SLASH))
  {
    JoinOfSplit(trimmed, SLASH);
    SplitMembers(trimmed, BACKSLASH);
    var components := Split(trimmed, SLASH);
    forall i | 0 <= i < |components|
      ensures components[i] in components
    {
    }
  }

  lemma {:induction false} JoinStarts(components: seq<seq<byte>>)
    requires |components| > 0 && components[0] != []
    ensures |Join(components, SLASH)| > 0 && Join(components, SLASH)[0] == components[0][0]
  {
  }

  lemma WrittenIsSlashed(raw: seq<byte>, rooted: bool, components: seq<seq<byte>>)
    requires WrittenAs(raw, rooted, components)
    ensures Slashed(raw) == (if rooted then [SLASH] else []) + Join(components, SLASH)
    ensures !([SLASH, SLASH] <= Slashed(raw)) && TrimFront(Slashed(raw)) == Join(components, SLASH)
  {
    var text := (if rooted then [SLASH] else []) + Join(components, SLASH);
    assert Slashed(raw) == text;
    JoinStarts(components);
    assert components[0][0] in components[0];
    var rest := Join(components, SLASH);
    assert rest[0] != SLASH && TrimFront(rest) == rest;
    TwoSlashes(text);
    if rooted {
      assert text[1..] == rest && text[1] == rest[0];
    }
  }

  lemma TwoSlashes(s: seq<byte>)
    ensures [SLASH, SLASH] <= s <==> |s| >= 2 && s[0] == SLASH && s[1] == SLASH
  {
    if |s| >= 2 {
      assert s[..2] == [s[0], s[1]];
    }
  }

  lemma WrittenIsAccepted(raw: seq<byte>, rooted: bool, components: seq<seq<byte>>, path: seq<byte>)
    requires WrittenAs(raw, rooted, components) && Names(components, path)
    ensures Denoted(raw) == Path(path)
  {
    WrittenIsSlashed(raw, rooted, components);
    SplitOfJoin(components, SLASH);
    JoinStarts(components);
    NoFault(components, 0);
    FirstNamedIsFirst(components);
  }

  /** A raw path denotes a path exactly if it is written as components that name it. */
  lemma DenotesExactly(raw: seq<byte>, path: seq<byte>)
    ensures Denoted(raw) == Path(path)
            <==> exists rooted, components :: WrittenAs(raw, rooted, components) && Names(components, path)
  {
    if Denoted(raw).Path? {
      var rooted, components := AcceptedIsWritten(raw);
    }
    forall rooted, components | WrittenAs(raw, rooted, components) && Names(components, path)
      ensures Denoted(raw) == Path(path)
    {
      WrittenIsAccepted(raw, rooted, components, path);
    }
  }

  // ---------------------------------------------------------------------
  // Ancestors and reserved names
  // ---------------------------------------------------------------------

  /** a is a proper ancestor of path. */
  predicate Ancestor(a: seq<byte>, path: seq<byte>) {
    |a| < |path| && path[..|a|] == a && path[|a|] == SLASH
  }

  const INIT: seq<byte> := [105, 110, 105, 116]

  predicate IsReserved(path: seq<byte>) {
    path == INIT || INIT + [SLASH] <= path || path == TRAILER_NAME
  }

  lemma InitIsCanonical()
    ensures Canonical(INIT)
  {
    assert SLASH !in INIT;
    assert Split(INIT, SLASH) == [INIT];
  }

  /** What is free of reserved names leaves /init alone: nothing is it, beneath it or above it. */
  lemma UnreservedSparesInit(path: seq<byte>)
    requires !IsReserved(path)
    ensures path != INIT && !Ancestor(INIT, path) && !Ancestor(path, INIT)
  {
  }

  function LastSlash(s: seq<byte>): (i: nat)
    requires SLASH in s
    ensures i < |s| && s[i] == SLASH && SLASH !in s[i + 1..]
  {
    if s[|s| - 1] == SLASH then |s| - 1
    else
      var init := s[..|s| - 1];
      assert s == init + [s[|s| - 1]];
      var i := LastSlash(init);
      assert s[i + 1..] == init[i + 1..] + [s[|s| - 1]];
      i
  }
}
