/** OCI image references: parsing, validation and the canonical form. */
module OciReference {
  import opened Common
  import opened Text

  datatype RefError =
    | Empty
    | HasUrlScheme
    | InvalidReference
    | InvalidDigest
    | UnsupportedDigestAlgorithm
    | InvalidDigestHex
    | InvalidTag
    | EmptyRepositoryComponent
    | InvalidRepositoryComponent

  datatype Result<+T> = Ok(value: T) | Err(error: RefError)

  datatype Reference = Reference(
    host: string,
    repository: string,
    tag: Option<string>,
    digest: Option<string>,
    scheme: string,
    canonical: string)

  const DEFAULT_HOST: string := "registry-1.docker.io"
  const MAX_COMPONENT_LEN: nat := 255
  const MAX_TAG_LEN: nat := 128

  predicate Lower(c: char) { 'a' <= c <= 'z' }
  predicate Digit(c: char) { '0' <= c <= '9' }
  predicate Alnum(c: char) { Lower(c) || Digit(c) }
  predicate TagStart(c: char) { Alnum(c) || 'A' <= c <= 'Z' || c == '_' }
  predicate TagChar(c: char) { TagStart(c) || c == '.' || c == '-' }
  predicate Hex(c: char) { Digit(c) || 'a' <= c <= 'f' || 'A' <= c <= 'F' }

  // ---------------------------------------------------------------------
  // The component grammar [a-z0-9]+((\.|_|__|-+)[a-z0-9]+)*
  // ---------------------------------------------------------------------

  /** [a-z0-9]+ */
  predicate Word(s: string) {
    |s| > 0 && forall i :: 0 <= i < |s| ==> Alnum(s[i])
  }

  /** \.|_|__|-+ */
  predicate Separator(s: string) {
    s == "." || s == "_" || s == "__" || (|s| > 0 && forall i :: 0 <= i < |s| ==> s[i] == '-')
  }

  /** A separator of length m and a word of length k are at the start of s. */
  predicate Segment(s: string, m: nat, k: nat) {
    m + k <= |s| && Separator(s[..m]) && Word(s[m..m + k])
  }

  /** ((\.|_|__|-+)[a-z0-9]+)* */
  ghost predicate Tail(s: string)
    decreases |s|
  {
    |s| == 0 || exists m: nat, k: nat :: Segment(s, m, k) && m + k > 0 && Tail(s[m + k..])
  }

  ghost predicate Component(s: string) {
    exists k: nat :: k <= |s| && Word(s[..k]) && Tail(s[k..])
  }

  /** Length of the word run at the start of s, from position i. */
  method ScanWord(s: string, from: nat) returns (index: nat)
    requires from <= |s|
    ensures from <= index <= |s| && (forall i :: from <= i < index ==> Alnum(s[i]))
    ensures index < |s| ==> !Alnum(s[index])
  {
    index := from;
    while index < |s| && Alnum(s[index])
      invariant from <= index <= |s| && forall i :: from <= i < index ==> Alnum(s[i])
    {
      index := index + 1;
    }
  }

  /** The separator run the scanner takes: one dot, one or two underscores, or all dashes. */
  method ScanSeparator(s: string, from: nat) returns (index: Option<nat>)
    requires from < |s|
    ensures index.None? <==> s[from] != '.' && s[from] != '_' && s[from] != '-'
    ensures index.Some? ==> from < index.value <= |s| && Separator(s[from..index.value])
    ensures index.Some? && s[from] == '_' && index.value < |s| && index.value == from + 1 ==> s[index.value] != '_'
    ensures index.Some? && s[from] == '-' && index.value < |s| ==> s[index.value] != '-'
  {
    if s[from] == '.' {
      return Some(from + 1);
    } else if s[from] == '_' {
      if from + 1 < |s| && s[from + 1] == '_' {
        assert s[from..from + 2] == "__";
        return Some(from + 2);
      }
      return Some(from + 1);
    } else if s[from] == '-' {
      var at := from;
      while at < |s| && s[at] == '-'
        invariant from <= at <= |s| && forall i :: from <= i < at ==> s[i] == '-'
      {
        at := at + 1;
      }
      return Some(at);
    }
    return None;
  }

  /** A maximal separator is the only one a segment can start with. */
  lemma SegmentForced(s: string, m: nat, k: nat, index: nat)
    requires Segment(s, m, k) && 0 < index <= |s| && Separator(s[..index])
    requires s[0] == '_' && index == 1 && index < |s| ==> s[index] != '_'
    requires s[0] == '-' && index < |s| ==> s[index] != '-'
    ensures m == index
  {
    assert s[..m][0] == s[0] == s[..index][0];
    assert Alnum(s[m..m + k][0]) && s[m..m + k][0] == s[m];
    assert forall j :: 0 <= j < index ==> s[..index][j] == s[j];
    assert forall j :: 0 <= j < m ==> s[..m][j] == s[j];
  }

  lemma NoSegment(s: string, m: nat, k: nat)
    requires Segment(s, m, k)
    ensures |s| > 0 && (s[0] == '.' || s[0] == '_' || s[0] == '-')
  {
    assert s[..m][0] == s[0];
  }

  lemma TailNeedsSeparator(s: string)
    requires Tail(s) && |s| > 0
    ensures s[0] == '.' || s[0] == '_' || s[0] == '-'
  {
    var m: nat, k: nat :| Segment(s, m, k) && m + k > 0 && Tail(s[m + k..]);
    NoSegment(s, m, k);
  }

  /** A maximal separator and a maximal word at the start of s. */
  predicate Peels(s: string, index: nat, end: nat) {
    && 0 < index < end <= |s| && Separator(s[..index]) && (forall i :: index <= i < end ==> Alnum(s[i]))
    && (end < |s| ==> !Alnum(s[end]))
    && (s[0] == '_' && index == 1 ==> s[index] != '_')
    && (s[0] == '-' ==> s[index] != '-')
  }

  /** Peeling a separator and a maximal word: the rest decides. */
  lemma TailStep(s: string, index: nat, end: nat)
    requires Peels(s, index, end)
    ensures Tail(s) <==> Tail(s[end..])
  {
    if Tail(s[end..]) {
      TailStepForth(s, index, end - index);
    }
    if Tail(s) {
      TailStepBack(s, index, end);
    }
  }

  lemma TailStepForth(s: string, m: nat, k: nat)
    requires m + k <= |s| && m > 0 && Separator(s[..m]) && k > 0 && (forall i :: m <= i < m + k ==> Alnum(s[i]))
    requires Tail(s[m + k..])
    ensures Tail(s)
  {
    assert Segment(s, m, k);
  }

  lemma TailStepBack(s: string, index: nat, end: nat)
    requires Peels(s, index, end) && Tail(s)
    ensures Tail(s[end..])
  {
    var m: nat, k: nat :| Segment(s, m, k) && m + k > 0 && Tail(s[m + k..]);
    SegmentEnds(s, m, k, index, end);
  }

  lemma SegmentEnds(s: string, m: nat, k: nat, index: nat, end: nat)
    requires Peels(s, index, end) && Segment(s, m, k) && Tail(s[m + k..])
    ensures m + k == end
  {
    SegmentForced(s, m, k, index);
    WordMaximal(s, m, k, end);
  }

  /** After a word comes a separator or the end, so the word is the whole run. */
  lemma WordMaximal(s: string, m: nat, k: nat, end: nat)
    requires m + k <= |s| && Word(s[m..m + k]) && Tail(s[m + k..])
    requires m < end <= |s| && (forall i :: m <= i < end ==> Alnum(s[i])) && (end < |s| ==> !Alnum(s[end]))
    ensures m + k == end
  {
    assert forall j :: m <= j < m + k ==> s[j] == s[m..m + k][j - m];
    if m + k < |s| {
      TailNeedsSeparator(s[m + k..]);
      assert s[m + k..][0] == s[m + k];
    }
  }

  lemma TailNeedsWord(s: string, index: nat)
    requires Tail(s) && 0 < index <= |s| && Separator(s[..index])
    requires s[0] == '_' && index == 1 && index < |s| ==> s[index] != '_'
    requires s[0] == '-' && index < |s| ==> s[index] != '-'
    ensures index < |s| && Alnum(s[index])
  {
    var m: nat, k: nat :| Segment(s, m, k) && m + k > 0 && Tail(s[m + k..]);
    SegmentForced(s, m, k, index);
    assert Alnum(s[m..m + k][0]) && s[m..m + k][0] == s[m];
  }

  lemma ComponentStep(s: string, index: nat)
    requires index <= |s| && (forall i :: 0 <= i < index ==> Alnum(s[i])) && (index < |s| ==> !Alnum(s[index]))
    ensures Component(s) <==> index > 0 && Tail(s[index..])
  {
    if index > 0 && Tail(s[index..]) {
      assert Word(s[..index]);
    }
    if Component(s) {
      var k: nat :| k <= |s| && Word(s[..k]) && Tail(s[k..]);
      assert s[..k][0] == s[0];
      assert s[0..0 + k] == s[..k];
      WordMaximal(s, 0, k, index);
    }
  }

  /** The greedy scanner accepts exactly the strings of the grammar. */
  method ValidateComponent(s: string) returns (ok: bool)
    ensures ok <==> Component(s)
  {
    var index := ScanWord(s, 0);
    ComponentStep(s, index);
    if index == 0 {
      return false;
    }
    while index < |s|
      invariant 0 < index <= |s|
      invariant Component(s) <==> Tail(s[index..])
      invariant index < |s| ==> !Alnum(s[index])
    {
      ghost var rest := s[index..];
      var after := ScanSeparator(s, index);
      if after.None? {
        if Tail(rest) {
          TailNeedsSeparator(rest);
        }
        return false;
      }
      ghost var m := after.value - index;
      assert rest[..m] == s[index..after.value];
      var end := ScanWord(s, after.value);
      if end == after.value {
        if Tail(rest) {
          TailNeedsWord(rest, m);
        }
        return false;
      }
      TailStep(rest, m, end - index);
      assert rest[end - index..] == s[end..];
      index := end;
    }
    return true;
  }

  // ---------------------------------------------------------------------
  // Repositories, tags, digests
  // ---------------------------------------------------------------------

  ghost predicate RepositoryPart(s: string) {
    |s| <= MAX_COMPONENT_LEN && Component(s)
  }

  /** A non-empty list of components joined by slashes. */
  ghost predicate Repository(s: string) {
    exists parts: seq<string> :: |parts| > 0 && Join(parts, '/') == s && AllParts(parts)
  }

  lemma {:induction false} TailChars(s: string, c: char)
    requires Tail(s) && c in s
    ensures Alnum(c) || c == '.' || c == '_' || c == '-'
    decreases |s|
  {
    var m: nat, k: nat :| Segment(s, m, k) && m + k > 0 && Tail(s[m + k..]);
    assert s == s[..m] + s[m..m + k] + s[m + k..];
    if c in s[m + k..] {
      TailChars(s[m + k..], c);
    }
  }

  lemma ComponentChars(s: string, c: char)
    requires Component(s) && c in s
    ensures Alnum(c) || c == '.' || c == '_' || c == '-'
  {
    var k: nat :| k <= |s| && Word(s[..k]) && Tail(s[k..]);
    assert s == s[..k] + s[k..];
    if c in s[k..] {
      TailChars(s[k..], c);
    }
  }

  /** Splitting at slashes is the only way to see a string as joined components. */
  lemma RepositoryParts(s: string)
    ensures Repository(s) <==> AllParts(Split(s, '/'))
  {
    if Repository(s) {
      var parts: seq<string> :| |parts| > 0 && Join(parts, '/') == s && AllParts(parts);
      forall i | 0 <= i < |parts|
        ensures '/' !in parts[i]
      {
        if '/' in parts[i] {
          ComponentChars(parts[i], '/');
        }
      }
      SplitOfJoin(parts, '/');
    }
    JoinOfSplit(s, '/');
  }

  ghost predicate AllParts(parts: seq<string>) {
    forall i :: 0 <= i < |parts| ==> RepositoryPart(parts[i])
  }

  ghost predicate FirstBad(parts: seq<string>, i: nat)
    requires i < |parts|
  {
    !RepositoryPart(parts[i]) && forall j :: 0 <= j < i ==> RepositoryPart(parts[j])
  }

  function PartFault(part: string): RefError {
    if |part| == 0 then EmptyRepositoryComponent else InvalidRepositoryComponent
  }

  method ValidatePart(part: string) returns (result: Result<()>)
    ensures result.Ok? <==> RepositoryPart(part)
    ensures result.Err? ==> result.error == PartFault(part)
  {
    if |part| == 0 {
      EmptyIsNoComponent();
      return Err(EmptyRepositoryComponent);
    }
    if |part| > MAX_COMPONENT_LEN {
      return Err(InvalidRepositoryComponent);
    }
    var ok := ValidateComponent(part);
    return if ok then Ok(()) else Err(InvalidRepositoryComponent);
  }

  method ValidateParts(parts: seq<string>) returns (result: Result<()>)
    ensures result.Ok? <==> AllParts(parts)
    ensures result.Err? ==> exists i :: 0 <= i < |parts| && FirstBad(parts, i) && result.error == PartFault(parts[i])
  {
    for i := 0 to |parts|
      invariant forall j :: 0 <= j < i ==> RepositoryPart(parts[j])
    {
      result := ValidatePart(parts[i]);
      if result.Err? {
        assert FirstBad(parts, i);
        return;
      }
    }
    return Ok(());
  }

  /** The repository validator accepts exactly the slash-joined component lists. */
  method ValidateRepository(s: string) returns (result: Result<()>)
    ensures result.Ok? <==> Repository(s)
    ensures result.Err? ==>
              var parts := Split(s, '/');
              exists i :: 0 <= i < |parts| && FirstBad(parts, i) && result.error == PartFault(parts[i])
  {
    RepositoryParts(s);
    if |s| == 0 {
      EmptyIsNoRepository(s);
      return Err(EmptyRepositoryComponent);
    }
    result := ValidateParts(Split(s, '/'));
  }

  lemma EmptyIsNoRepository(s: string)
    requires |s| == 0
    ensures !AllParts(Split(s, '/'))
  {
    EmptyIsNoComponent();
    assert Split(s, '/')[0] == "";
    assert !RepositoryPart(Split(s, '/')[0]);
  }

  lemma EmptyIsNoComponent()
    ensures !Component("")
  {
  }

  /** [a-zA-Z0-9_][a-zA-Z0-9._-]{0,127} */
  predicate Tag(s: string) {
    0 < |s| <= MAX_TAG_LEN && TagStart(s[0]) && forall i :: 1 <= i < |s| ==> TagChar(s[i])
  }

  lemma LettersSpelledOut(c: char)
    ensures Alnum(c) <==> c in "abcdefghijklmnopqrstuvwxyz" || Digit(c)
    ensures TagStart(c) <==> Alnum(c) || c in "ABCDEFGHIJKLMNOPQRSTUVWXYZ" || c == '_'
  {
  }

  lemma DigitsSpelledOut(c: char)
    ensures Digit(c) <==> c in "0123456789"
    ensures Hex(c) <==> Digit(c) || c in "abcdef" || c in "ABCDEF"
  {
  }

  /** A tag is one starting character and up to 127 more. */
  lemma TagIsPattern(s: string)
    ensures Tag(s) <==>
              exists first, more ::
                && s == [first] + more && TagStart(first) && |more| <= 127
                && forall c :: c in more ==> TagStart(c) || c == '.' || c == '-'
  {
    if Tag(s) {
      assert s == [s[0]] + s[1..];
      assert forall c :: c in s[1..] ==> TagChar(c);
    }
    forall first, more | s == [first] + more && TagStart(first) && |more| <= 127
                         && forall c :: c in more ==> TagStart(c) || c == '.' || c == '-'
      ensures Tag(s)
    {
      assert forall i :: 1 <= i < |s| ==> s[i] == more[i - 1];
    }
  }

  /** sha256 or sha512, a colon, and its number of hexadecimal digits. */
  predicate Digest(s: string) {
    && |s| > 7 && (s[..7] == "sha256:" || s[..7] == "sha512:")
    && |s| == 7 + (if s[..7] == "sha256:" then 64 else 128)
    && forall i :: 7 <= i < |s| ==> Hex(s[i])
  }

  lemma TagLacks(s: string)
    requires Tag(s)
    ensures '/' !in s && ':' !in s && '@' !in s
  {
  }

  lemma DigestLacks(s: string)
    requires Digest(s)
    ensures '/' !in s && '@' !in s
  {
    assert s == s[..7] + s[7..];
    assert forall i :: 0 <= i < |s| - 7 ==> s[7..][i] == s[7 + i];
  }

  predicate DigestError(e: RefError) {
    e == InvalidDigest || e == UnsupportedDigestAlgorithm || e == InvalidDigestHex
  }

  /** Validate by splitting at the first colon. */
  function ValidateDigest(s: string): (r: Result<()>)
    ensures r.Ok? <==> Digest(s)
    ensures r.Err? ==> DigestError(r.error)
    ensures r == Err(InvalidDigest) <==> ':' !in s
    ensures r == Err(UnsupportedDigestAlgorithm) <==> ':' in s && !("sha256:" <= s) && !("sha512:" <= s)
  {
    DigestColon(s);
    AlgorithmColon(s, "sha256");
    AlgorithmColon(s, "sha512");
    if ':' !in s then Err(InvalidDigest)
    else
      var i := IndexOf(s, ':');
      var algorithm, hex := s[..i], s[i + 1..];
      if algorithm != "sha256" && algorithm != "sha512" then Err(UnsupportedDigestAlgorithm)
      else
        assert s[..7] == algorithm + [':'];
        assert forall j :: 0 <= j < |hex| ==> hex[j] == s[7 + j];
        assert forall j :: 7 <= j < |s| ==> s[j] == hex[j - 7];
        if |hex| != (if algorithm == "sha256" then 64 else 128) || exists j :: 0 <= j < |hex| && !Hex(hex[j]) then
          Err(InvalidDigestHex)
        else Ok(())
  }

  lemma AlgorithmColon(s: string, algorithm: string)
    requires ':' !in algorithm
    ensures algorithm + ":" <= s <==> ':' in s && s[..IndexOf(s, ':')] == algorithm
  {
    if algorithm + ":" <= s {
      var n := |algorithm|;
      assert s[n] == (algorithm + ":")[n];
      assert forall i :: 0 <= i < n ==> s[i] == (algorithm + ":")[i] == algorithm[i];
    }
  }

  lemma DigestColon(s: string)
    ensures Digest(s) ==> ':' in s && IndexOf(s, ':') == 6 && (s[..6] == "sha256" || s[..6] == "sha512")
  {
    if Digest(s) {
      assert s[..7][..6] == s[..6];
      assert forall j :: 0 <= j < 7 ==> s[j] == s[..7][j];
      assert s[6] == ':';
      var i := IndexOf(s, ':');
      assert forall j :: 0 <= j < i ==> s[j] == s[..i][j];
    }
  }

  // ---------------------------------------------------------------------
  // Parsing
  // ---------------------------------------------------------------------

  function LastIndexOf(s: string, c: char): (i: nat)
    requires c in s
    ensures i < |s| && s[i] == c && forall j :: i < j < |s| ==> s[j] != c
    decreases |s|
  {
    if s[|s| - 1] == c then |s| - 1
    else
      assert s == s[..|s| - 1] + [s[|s| - 1]];
      LastIndexOf(s[..|s| - 1], c)
  }

  predicate SchemeAt(s: string, i: nat) {
    i + 3 <= |s| && s[i] == ':' && s[i + 1] == '/' && s[i + 2] == '/'
  }

  /** Position of the first "://", if any. */
  function FindScheme(s: string, from: nat): (r: Option<nat>)
    requires from <= |s|
    ensures r.Some? ==> from <= r.value && SchemeAt(s, r.value)
    ensures r.Some? ==> forall i: nat :: from <= i < r.value ==> !SchemeAt(s, i)
    ensures r.None? ==> forall i: nat :: from <= i ==> !SchemeAt(s, i)
    decreases |s| - from
  {
    if from == |s| then None
    else if SchemeAt(s, from) then Some(from)
    else FindScheme(s, from + 1)
  }

  predicate LooksLikeHost(s: string) {
    '.' in s || ':' in s || s == "localhost" || (|s| > 0 && s[0] == '[' && ']' in s)
  }

  function BuildCanonical(host: string, repository: string, tag: Option<string>, digest: Option<string>): string {
    host + "/" + repository
    + (if tag.Some? then ":" + tag.value else "")
    + (if digest.Some? then "@" + digest.value else "")
  }

  /** A colon is a tag separator only after the final slash, so ports survive. */
  function TagSeparator(name: string): (r: Option<nat>)
    ensures r.Some? ==> r.value < |name| && name[r.value] == ':'
  {
    if ':' !in name then None
    else
      var colon := LastIndexOf(name, ':');
      if '/' in name && colon < LastIndexOf(name, '/') then None else Some(colon)
  }

  /** The host and repository a name stands for, with the Docker Hub shorthand expanded. */
  function Resolve(name: string): (string, string) {
    var (host, repository) :=
      if '/' !in name then (DEFAULT_HOST, name)
      else
        var first := name[..IndexOf(name, '/')];
        if LooksLikeHost(first) then (first, name[IndexOf(name, '/') + 1..]) else (DEFAULT_HOST, name);
    (host, if host == DEFAULT_HOST && '/' !in repository then "library/" + repository else repository)
  }

  function MakeReference(host: string, repository: string, tag: Option<string>, digest: Option<string>,
                         scheme: string): Reference {
    var full := if tag.None? && digest.None? then Some("latest") else tag;
    Reference(host, repository, full, digest, scheme, BuildCanonical(host, repository, full, digest))
  }

  /** The reference a name with an optional tag denotes. */
  ghost function FromName(name: string, digest: Option<string>, scheme: string): Option<Reference> {
    var at := TagSeparator(name);
    var base := if at.Some? then name[..at.value] else name;
    var tag := if at.Some? then Some(name[at.value + 1..]) else None;
    var (host, repository) := Resolve(base);
    if at.Some? && (|base| == 0 || !Tag(tag.value)) then None
    else if !Repository(repository) then None
    else Some(MakeReference(host, repository, tag, digest, scheme))
  }

  ghost function FromReference(reference: string, scheme: string): Option<Reference> {
    if '@' !in reference then FromName(reference, None, scheme)
    else
      var i := IndexOf(reference, '@');
      var name, digest := reference[..i], reference[i + 1..];
      if |name| == 0 || !Digest(digest) then None else FromName(name, Some(digest), scheme)
  }

  /** What a text denotes: nothing, or one reference. */
  ghost function Denotes(value: string): Option<Reference> {
    match FindScheme(value, 0)
    case None => if |value| == 0 then None else FromReference(value, "https")
    case Some(i) =>
      if (value[..i] == "http" || value[..i] == "https") && |value| > i + 3 then
        FromReference(value[i + 3..], value[..i])
      else
        None
  }

  predicate ForeignScheme(value: string) {
    var at := FindScheme(value, 0);
    at.Some? && value[..at.value] != "http" && value[..at.value] != "https"
  }

  predicate RepositoryError(e: RefError) {
    e == EmptyRepositoryComponent || e == InvalidRepositoryComponent
  }

  /** A tag is there and it, or the name before it, is not as it should be. */
  predicate TagFails(name: string) {
    var at := TagSeparator(name);
    at.Some? && (at.value == 0 || !Tag(name[at.value + 1..]))
  }

  /** A digest is there and it, or the name before it, is not as it should be. */
  predicate DigestFails(reference: string) {
    '@' in reference && (IndexOf(reference, '@') == 0 || !Digest(reference[IndexOf(reference, '@') + 1..]))
  }

  /** The name before the digest. */
  function NamePart(reference: string): string {
    if '@' in reference then reference[..IndexOf(reference, '@')] else reference
  }

  /** An error names the first part at fault: the digest, then the tag, then the repository. */
  predicate Blames(reference: string, e: RefError) {
    if DigestFails(reference) then DigestError(e)
    else if TagFails(NamePart(reference)) then e == InvalidTag
    else RepositoryError(e)
  }

  /** The text after the scheme. */
  function Body(value: string): string {
    match FindScheme(value, 0)
    case None => value
    case Some(i) => value[i + 3..]
  }

  function ToOption(r: Result<Reference>): Option<Reference> {
    match r
    case Ok(x) => Some(x)
    case Err(_) => None
  }

  method ParseName(name: string, digest: Option<string>, scheme: string) returns (result: Result<Reference>)
    ensures FromName(name, digest, scheme) == ToOption(result)
    ensures result.Err? ==> if TagFails(name) then result.error == InvalidTag else RepositoryError(result.error)
  {
    var at := TagSeparator(name);
    var base := name;
    var tag: Option<string> := None;
    if at.Some? {
      base, tag := name[..at.value], Some(name[at.value + 1..]);
      if |base| == 0 || !Tag(tag.value) {
        return Err(InvalidTag);
      }
    }
    var (host, repository) := Resolve(base);
    var valid := ValidateRepository(repository);
    if valid.Err? {
      return Err(valid.error);
    }
    return Ok(MakeReference(host, repository, tag, digest, scheme));
  }

  method ParseReference(reference: string, scheme: string) returns (result: Result<Reference>)
    ensures FromReference(reference, scheme) == ToOption(result)
    ensures result.Err? ==> Blames(reference, result.error)
  {
    if '@' in reference {
      var i := IndexOf(reference, '@');
      var name, digest := reference[..i], reference[i + 1..];
      if |name| == 0 || |digest| == 0 {
        return Err(InvalidDigest);
      }
      var valid := ValidateDigest(digest);
      if valid.Err? {
        return Err(valid.error);
      }
      result := ParseName(name, Some(digest), scheme);
    } else {
      result := ParseName(reference, None, scheme);
    }
  }

  /** Nothing follows the scheme. */
  predicate BareScheme(value: string) {
    var at := FindScheme(value, 0);
    at.Some? && (value[..at.value] == "http" || value[..at.value] == "https") && |value| == at.value + 3
  }

  lemma SchemeAlone(value: string, scheme: string)
    requires ':' !in scheme
    ensures value == scheme + "://" <==>
              var at := FindScheme(value, 0); at.Some? && value[..at.value] == scheme && |value| == at.value + 3
  {
    var at := FindScheme(value, 0);
    if value == scheme + "://" {
      assert SchemeAt(value, |scheme|);
      assert forall i :: 0 <= i < |scheme| ==> value[i] == scheme[i];
    }
  }

  lemma BareSchemeMeans(value: string)
    ensures BareScheme(value) <==> value == "http" + "://" || value == "https" + "://"
  {
    SchemeAlone(value, "http");
    SchemeAlone(value, "https");
  }

  /** Parse a reference, step by step. */
  method Parse(value: string) returns (result: Result<Reference>)
    ensures Denotes(value) == ToOption(result)
    ensures result == Err(Empty) <==> |value| == 0
    ensures result == Err(HasUrlScheme) <==> ForeignScheme(value)
    ensures result == Err(InvalidReference) <==> BareScheme(value)
    ensures result.Err? && |value| > 0 && !ForeignScheme(value) && |Body(value)| > 0 ==>
              Blames(Body(value), result.error)
  {
    if |value| == 0 {
      return Err(Empty);
    }
    var at := FindScheme(value, 0);
    if at.None? {
      result := ParseReference(value, "https");
      return;
    }
    var scheme, reference := value[..at.value], value[at.value + 3..];
    if scheme != "http" && scheme != "https" {
      return Err(HasUrlScheme);
    }
    if |reference| == 0 {
      return Err(InvalidReference);
    }
    result := ParseReference(reference, scheme);
  }

  // ---------------------------------------------------------------------
  // The canonical form
  // ---------------------------------------------------------------------

  predicate NoDoubleSlash(s: string) {
    forall i :: 0 <= i < |s| - 1 ==> !(s[i] == '/' && s[i + 1] == '/')
  }

  lemma {:induction false} JoinedShape(parts: seq<string>)
    requires |parts| > 0 && forall i :: 0 <= i < |parts| ==> |parts[i]| > 0 && '/' !in parts[i]
    ensures var s := Join(parts, '/'); |s| > 0 && s[0] != '/' && NoDoubleSlash(s)
    decreases |parts|
  {
    if |parts| > 1 {
      JoinedShape(parts[1..]);
      var rest := Join(parts[1..], '/');
      var s := parts[0] + ['/'] + rest;
      assert forall i :: 0 <= i < |parts[0]| ==> s[i] == parts[0][i];
      assert forall i :: 0 <= i < |rest| ==> s[|parts[0]| + 1 + i] == rest[i];
      forall i | 0 <= i < |s| - 1
        ensures !(s[i] == '/' && s[i + 1] == '/')
      {
        if i > |parts[0]| {
          assert s[i] == rest[i - |parts[0]| - 1] && s[i + 1] == rest[i - |parts[0]|];
        }
      }
    }
  }

  lemma RepositoryShape(s: string)
    requires Repository(s)
    ensures |s| > 0 && s[0] != '/' && NoDoubleSlash(s) && ':' !in s && '@' !in s
  {
    RepositoryParts(s);
    JoinOfSplit(s, '/');
    var parts := Split(s, '/');
    forall i | 0 <= i < |parts|
      ensures |parts[i]| > 0 && ':' !in parts[i] && '@' !in parts[i]
    {
      assert RepositoryPart(parts[i]);
      EmptyIsNoComponent();
      if ':' in parts[i] {
        ComponentChars(parts[i], ':');
      }
      if '@' in parts[i] {
        ComponentChars(parts[i], '@');
      }
    }
    JoinedShape(parts);
    JoinMembers(parts, '/', ':');
    JoinMembers(parts, '/', '@');
  }

  /** What every accepted reference satisfies. */
  ghost predicate WellFormed(r: Reference) {
    && LooksLikeHost(r.host) && '/' !in r.host && '@' !in r.host
    && Repository(r.repository) && (r.host == DEFAULT_HOST ==> '/' in r.repository)
    && (r.tag.Some? ==> Tag(r.tag.value)) && (r.digest.Some? ==> Digest(r.digest.value))
    && (r.tag.Some? || r.digest.Some?)
    && r.canonical == BuildCanonical(r.host, r.repository, r.tag, r.digest)
  }

  lemma ResolveShape(name: string)
    requires '@' !in name
    ensures var (host, repository) := Resolve(name);
            LooksLikeHost(host) && '/' !in host && '@' !in host && (host == DEFAULT_HOST ==> '/' in repository)
  {
    assert DEFAULT_HOST[10] == '.';
    if '/' in name {
      var i := IndexOf(name, '/');
      assert forall c :: c in name[..i] ==> c in name;
    }
    assert forall x: string :: '/' in "library/" + x by {
      forall x: string ensures '/' in "library/" + x { assert ("library/" + x)[7] == '/'; }
    }
  }

  lemma MadeIsWellFormed(host: string, repository: string, tag: Option<string>, digest: Option<string>, scheme: string)
    requires LooksLikeHost(host) && '/' !in host && '@' !in host
    requires Repository(repository) && (host == DEFAULT_HOST ==> '/' in repository)
    requires (tag.Some? ==> Tag(tag.value)) && (digest.Some? ==> Digest(digest.value))
    ensures WellFormed(MakeReference(host, repository, tag, digest, scheme))
  {
    assert Tag("latest");
  }

  lemma FromNameWellFormed(name: string, digest: Option<string>, scheme: string)
    requires '@' !in name && (digest.Some? ==> Digest(digest.value))
    requires FromName(name, digest, scheme).Some?
    ensures WellFormed(FromName(name, digest, scheme).value)
  {
    var at := TagSeparator(name);
    var base := if at.Some? then name[..at.value] else name;
    assert forall c :: c in base ==> c in name;
    ResolveShape(base);
    var tag := if at.Some? then Some(name[at.value + 1..]) else None;
    MadeIsWellFormed(Resolve(base).0, Resolve(base).1, tag, digest, scheme);
  }

  lemma AcceptedIsWellFormed(value: string)
    requires Denotes(value).Some?
    ensures WellFormed(Denotes(value).value)
  {
    var at := FindScheme(value, 0);
    var reference, scheme := value, "https";
    if at.Some? {
      reference, scheme := value[at.value + 3..], value[..at.value];
    }
    if '@' in reference {
      var i := IndexOf(reference, '@');
      FromNameWellFormed(reference[..i], Some(reference[i + 1..]), scheme);
    } else {
      FromNameWellFormed(reference, None, scheme);
    }
  }

  lemma LastIndexOfSuffix(a: string, c: char, b: string)
    requires c !in b
    ensures c in a + [c] + b && LastIndexOf(a + [c] + b, c) == |a|
  {
    var s := a + [c] + b;
    assert s[|a|] == c;
    assert forall j :: |a| < j < |s| ==> s[j] == b[j - |a| - 1];
  }

  /** Host and repository joined by a slash resolve to themselves. */
  lemma ResolveJoined(host: string, repository: string)
    requires LooksLikeHost(host) && '/' !in host && (host == DEFAULT_HOST ==> '/' in repository)
    ensures Resolve(host + "/" + repository) == (host, repository)
  {
    var name := host + ['/'] + repository;
    IndexOfPrefix(host, '/', repository);
    assert name[..|host|] == host && name[|host| + 1..] == repository;
  }

  lemma TagOfTagged(base: string, tag: string)
    requires Tag(tag)
    ensures TagSeparator(base + ":" + tag) == Some(|base|)
  {
    TagLacks(tag);
    var name := base + [':'] + tag;
    LastIndexOfSuffix(base, ':', tag);
    if '/' in name {
      var slash := LastIndexOf(name, '/');
      assert forall j :: |base| < j < |name| ==> name[j] == tag[j - |base| - 1];
      assert name[|base|] == ':';
    }
  }

  lemma TagOfUntagged(host: string, repository: string)
    requires ':' !in repository
    ensures TagSeparator(host + "/" + repository) == None
  {
    var name := host + ['/'] + repository;
    assert name[|host|] == '/';
    assert forall j :: |host| < j < |name| ==> name[j] == repository[j - |host| - 1];
  }

  lemma FromTagged(base: string, tag: string, digest: Option<string>, host: string, repository: string, scheme: string)
    requires |base| > 0 && Tag(tag) && Resolve(base) == (host, repository) && Repository(repository)
    ensures FromName(base + (":" + tag), digest, scheme)
            == Some(MakeReference(host, repository, Some(tag), digest, scheme))
  {
    TagOfTagged(base, tag);
    var name := base + (":" + tag);
    assert name == base + ":" + tag;
    assert name[..|base|] == base && name[|base| + 1..] == tag;
  }

  lemma FromUntagged(base: string, digest: Option<string>, host: string, repository: string, scheme: string)
    requires TagSeparator(base) == None && Resolve(base) == (host, repository) && Repository(repository)
    ensures FromName(base + "", digest, scheme) == Some(MakeReference(host, repository, None, digest, scheme))
  {
    assert base + "" == base;
  }

  lemma FromCanonicalName(r: Reference)
    requires WellFormed(r)
    ensures var name := r.host + "/" + r.repository + (if r.tag.Some? then ":" + r.tag.value else "");
            FromName(name, r.digest, "https") == Some(r.(scheme := "https"))
  {
    var base := r.host + "/" + r.repository;
    RepositoryShape(r.repository);
    ResolveJoined(r.host, r.repository);
    assert MakeReference(r.host, r.repository, r.tag, r.digest, "https") == r.(scheme := "https");
    if r.tag.Some? {
      FromTagged(base, r.tag.value, r.digest, r.host, r.repository, "https");
    } else {
      TagOfUntagged(r.host, r.repository);
      FromUntagged(base, r.digest, r.host, r.repository, "https");
    }
  }

  lemma CanonicalName(r: Reference)
    requires WellFormed(r)
    ensures var name := r.host + "/" + r.repository + (if r.tag.Some? then ":" + r.tag.value else "");
            '@' !in name && |name| > 0 && r.canonical == name + (if r.digest.Some? then "@" + r.digest.value else "")
  {
    RepositoryShape(r.repository);
    if r.tag.Some? {
      TagLacks(r.tag.value);
    }
  }

  /** A text without two slashes in a row has no scheme. */
  lemma NoScheme(s: string)
    requires NoDoubleSlash(s)
    ensures FindScheme(s, 0) == None
  {
    forall i: nat
      ensures !SchemeAt(s, i)
    {
      assert i + 2 < |s| ==> !(s[i + 1] == '/' && s[i + 1 + 1] == '/');
    }
  }

  lemma NoDoubleSlashJoin(a: string, b: string)
    requires NoDoubleSlash(a) && NoDoubleSlash(b) && (|a| == 0 || |b| == 0 || a[|a| - 1] != '/' || b[0] != '/')
    ensures NoDoubleSlash(a + b)
  {
    var s := a + b;
    forall i | 0 <= i < |s| - 1
      ensures !(s[i] == '/' && s[i + 1] == '/')
    {
      if i + 1 < |a| {
        assert s[i] == a[i] && s[i + 1] == a[i + 1];
      } else if i >= |a| {
        assert s[i] == b[i - |a|] && s[i + 1] == b[i + 1 - |a|];
      }
    }
  }

  lemma CanonicalHasNoScheme(r: Reference)
    requires WellFormed(r)
    ensures NoDoubleSlash(r.canonical)
  {
    RepositoryShape(r.repository);
    NoDoubleSlashJoin(r.host, "/");
    NoDoubleSlashJoin(r.host + "/", r.repository);
    var base := r.host + "/" + r.repository;
    var tagged := base + (if r.tag.Some? then ":" + r.tag.value else "");
    if r.tag.Some? {
      TagLacks(r.tag.value);
      NoDoubleSlashJoin(base, ":" + r.tag.value);
    } else {
      assert tagged == base;
    }
    if r.digest.Some? {
      DigestLacks(r.digest.value);
      NoDoubleSlashJoin(tagged, "@" + r.digest.value);
    } else {
      assert r.canonical == tagged;
    }
  }

  lemma FromPinned(name: string, digest: string, scheme: string)
    requires '@' !in name && |name| > 0 && Digest(digest)
    ensures FromReference(name + ("@" + digest), scheme) == FromName(name, Some(digest), scheme)
  {
    var s := name + ("@" + digest);
    IndexOfPrefix(name, '@', digest);
    assert s == name + ['@'] + digest;
    assert s[..|name|] == name && s[|name| + 1..] == digest;
  }

  lemma FromUnpinned(name: string, scheme: string)
    requires '@' !in name
    ensures FromReference(name + "", scheme) == FromName(name, None, scheme)
  {
    assert name + "" == name;
  }

  lemma CanonicalDenotes(r: Reference)
    requires WellFormed(r)
    ensures Denotes(r.canonical) == Some(r.(scheme := "https"))
  {
    CanonicalName(r);
    FromCanonicalName(r);
    var name := r.host + "/" + r.repository + (if r.tag.Some? then ":" + r.tag.value else "");
    if r.digest.Some? {
      FromPinned(name, r.digest.value, "https");
    } else {
      FromUnpinned(name, "https");
    }
    assert FromReference(r.canonical, "https") == Some(r.(scheme := "https"));
    CanonicalHasNoScheme(r);
    NoScheme(r.canonical);
  }

  /** Reparsing the canonical form of any accepted text succeeds with the same
      host, repository, tag and digest; only the transport scheme is reset. */
  lemma CanonicalRoundTrip(value: string)
    requires Denotes(value).Some?
    ensures Denotes(Denotes(value).value.canonical) == Some(Denotes(value).value.(scheme := "https"))
  {
    AcceptedIsWellFormed(value);
    CanonicalDenotes(Denotes(value).value);
  }

  /** Two accepted texts have equal canonical forms exactly when all four fields
      agree, whatever scheme or shorthand they were written with. */
  lemma CanonicalEquality(a: string, b: string)
    requires Denotes(a).Some? && Denotes(b).Some?
    ensures var x, y := Denotes(a).value, Denotes(b).value;
            x.canonical == y.canonical <==>
              x.host == y.host && x.repository == y.repository && x.tag == y.tag && x.digest == y.digest
  {
    CanonicalRoundTrip(a);
    CanonicalRoundTrip(b);
    AcceptedIsWellFormed(a);
    AcceptedIsWellFormed(b);
  }
}
