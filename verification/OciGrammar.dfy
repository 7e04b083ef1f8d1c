/** How image references are written: every spelling and what it means. The parser
    accepts exactly the spellings, and reads each as it is meant. */
module OciGrammar {
  import opened Common
  import opened OciReference
  import opened Text

  /** The parts of a reference as somebody writes them. */
  datatype Spelling = Spelling(
    scheme: Option<string>,
    host: Option<string>,
    repository: string,
    tag: Option<string>,
    digest: Option<string>)

  function Base(s: Spelling): string {
    (if s.host.Some? then s.host.value + "/" else "") + s.repository
  }

  function Name(s: Spelling): string {
    Base(s) + (if s.tag.Some? then ":" + s.tag.value else "")
  }

  function Schemeless(s: Spelling): string {
    Name(s) + (if s.digest.Some? then "@" + s.digest.value else "")
  }

  function Spelled(s: Spelling): string {
    (if s.scheme.Some? then s.scheme.value + "://" else "") + Schemeless(s)
  }

  /** What marks the first part of a name as a host. */
  predicate HostLike(host: string) {
    || (exists i :: 0 <= i < |host| && (host[i] == '.' || host[i] == ':'))
    || host == "localhost"
    || (|host| > 0 && host[0] == '[' && exists i :: 0 <= i < |host| && host[i] == ']')
  }

  /** Without a host the repository must not begin with a part that would be taken for one. */
  ghost predicate Correct(s: Spelling) {
    && (s.scheme.Some? ==> s.scheme.value == "http" || s.scheme.value == "https")
    && (s.host.Some? ==> HostLike(s.host.value) && '/' !in s.host.value && '@' !in s.host.value)
    && (s.host.None? && '/' in s.repository ==> !HostLike(s.repository[..IndexOf(s.repository, '/')]))
    && Repository(s.repository)
    && (s.tag.Some? ==> Tag(s.tag.value))
    && (s.digest.Some? ==> Digest(s.digest.value))
  }

  function Host(s: Spelling): string {
    if s.host.Some? then s.host.value else "registry-1.docker.io"
  }

  /** On Docker Hub a repository of one part is in the namespace of the library. */
  function FullRepository(s: Spelling): string {
    if Host(s) == "registry-1.docker.io" && '/' !in s.repository then "library/" + s.repository else s.repository
  }

  function FullTag(s: Spelling): Option<string> {
    if s.tag.None? && s.digest.None? then Some("latest") else s.tag
  }

  /** What a spelling means. The canonical text spells out everything but the scheme. */
  function Meaning(s: Spelling): Reference {
    Reference(Host(s), FullRepository(s), FullTag(s), s.digest, if s.scheme.Some? then s.scheme.value else "https",
              Schemeless(Spelling(None, Some(Host(s)), FullRepository(s), FullTag(s), s.digest)))
  }

  lemma HostLikeIsHost(host: string)
    ensures HostLike(host) <==> LooksLikeHost(host)
  {
    assert '.' in host <==> exists i :: 0 <= i < |host| && host[i] == '.';
    assert ':' in host <==> exists i :: 0 <= i < |host| && host[i] == ':';
    assert ']' in host <==> exists i :: 0 <= i < |host| && host[i] == ']';
  }

  // ---------------------------------------------------------------------
  // Every spelling is read as it is meant
  // ---------------------------------------------------------------------

  lemma LibraryIsPart()
    ensures RepositoryPart("library")
  {
    var s := "library";
    assert forall i :: 0 <= i < |s| ==> Alnum(s[i]);
    assert Word(s[..7]) && s[..7] == s && s[7..] == "";
    assert Tail(s[7..]);
  }

  lemma LibraryRepository(r: string)
    requires '/' !in r
    ensures Repository(r) <==> Repository("library/" + r)
  {
    var full := "library/" + r;
    LibraryIsPart();
    IndexOfPrefix("library", '/', r);
    assert full == "library" + ['/'] + r && full[..7] == "library" && full[8..] == r;
    assert Split(r, '/') == [r] && Split(full, '/') == ["library"] + [r];
    RepositoryParts(r);
    RepositoryParts(full);
  }

  lemma HostedResolves(host: string, repository: string)
    requires HostLike(host) && '/' !in host
    ensures Resolve(host + "/" + repository)
            == (host, if host == DEFAULT_HOST && '/' !in repository then "library/" + repository else repository)
  {
    HostLikeIsHost(host);
    IndexOfPrefix(host, '/', repository);
    var base := host + ['/'] + repository;
    assert base[..|host|] == host && base[|host| + 1..] == repository;
  }

  lemma UnhostedResolves(repository: string)
    requires '/' in repository ==> !HostLike(repository[..IndexOf(repository, '/')])
    ensures Resolve(repository)
            == (DEFAULT_HOST, if '/' !in repository then "library/" + repository else repository)
  {
    if '/' in repository {
      HostLikeIsHost(repository[..IndexOf(repository, '/')]);
    }
  }

  lemma BaseResolves(s: Spelling)
    requires s.host.Some? ==> HostLike(s.host.value) && '/' !in s.host.value
    requires s.host.None? && '/' in s.repository ==> !HostLike(s.repository[..IndexOf(s.repository, '/')])
    ensures Resolve(Base(s)) == (Host(s), FullRepository(s))
  {
    if s.host.Some? {
      HostedResolves(s.host.value, s.repository);
    } else {
      UnhostedResolves(s.repository);
      assert Base(s) == s.repository;
    }
  }

  lemma FullIsRepository(s: Spelling)
    ensures Repository(s.repository) <==> Repository(FullRepository(s))
  {
    if '/' !in s.repository {
      LibraryRepository(s.repository);
    }
  }

  lemma BaseHasNoTag(s: Spelling)
    requires ':' !in s.repository
    ensures TagSeparator(Base(s)) == None
  {
    if s.host.Some? {
      TagOfUntagged(s.host.value, s.repository);
    } else {
      assert Base(s) == s.repository;
    }
  }

  lemma MeaningIsMade(s: Spelling)
    ensures Meaning(s) == MakeReference(Host(s), FullRepository(s), s.tag, s.digest, Meaning(s).scheme)
  {
  }

  lemma NameDenotes(s: Spelling)
    requires Repository(FullRepository(s)) && Resolve(Base(s)) == (Host(s), FullRepository(s)) && |Base(s)| > 0
    requires if s.tag.Some? then Tag(s.tag.value) else TagSeparator(Base(s)) == None
    ensures FromName(Name(s), s.digest, Meaning(s).scheme) == Some(Meaning(s))
  {
    MeaningIsMade(s);
    if s.tag.Some? {
      FromTagged(Base(s), s.tag.value, s.digest, Host(s), FullRepository(s), Meaning(s).scheme);
    } else {
      FromUntagged(Base(s), s.digest, Host(s), FullRepository(s), Meaning(s).scheme);
    }
  }

  lemma NameHasNoAt(s: Spelling)
    requires Correct(s)
    ensures '@' !in Name(s) && |Name(s)| > 0
  {
    RepositoryShape(s.repository);
    if s.tag.Some? {
      TagLacks(s.tag.value);
    }
  }

  lemma SchemelessDenotes(s: Spelling)
    requires Correct(s)
    ensures FromReference(Schemeless(s), Meaning(s).scheme) == Some(Meaning(s)) && |Schemeless(s)| > 0
  {
    NameHasNoAt(s);
    assert FromName(Name(s), s.digest, Meaning(s).scheme) == Some(Meaning(s)) by {
      RepositoryShape(s.repository);
      BaseHasNoTag(s);
      BaseResolves(s);
      FullIsRepository(s);
      NameDenotes(s);
    }
    if s.digest.Some? {
      FromPinned(Name(s), s.digest.value, Meaning(s).scheme);
    } else {
      FromUnpinned(Name(s), Meaning(s).scheme);
    }
  }

  lemma SchemelessHasNoScheme(s: Spelling)
    requires Correct(s)
    ensures FindScheme(Schemeless(s), 0) == None
  {
    RepositoryShape(s.repository);
    var host := if s.host.Some? then s.host.value + "/" else "";
    if s.host.Some? {
      NoDoubleSlashJoin(s.host.value, "/");
    }
    NoDoubleSlashJoin(host, s.repository);
    var tag := if s.tag.Some? then ":" + s.tag.value else "";
    if s.tag.Some? {
      TagLacks(s.tag.value);
    }
    NoDoubleSlashJoin(Base(s), tag);
    var digest := if s.digest.Some? then "@" + s.digest.value else "";
    if s.digest.Some? {
      DigestLacks(s.digest.value);
    }
    NoDoubleSlashJoin(Name(s), digest);
    NoScheme(Schemeless(s));
  }

  lemma SchemedDenotes(scheme: string, text: string)
    requires (scheme == "http" || scheme == "https") && |text| > 0
    ensures Denotes(scheme + "://" + text) == FromReference(text, scheme)
  {
    SchemeIsFound(scheme, text);
    var all := scheme + "://" + text;
    assert all[|scheme| + 3..] == text && all[..|scheme|] == scheme;
  }

  lemma SchemeIsFound(scheme: string, text: string)
    requires ':' !in scheme
    ensures FindScheme(scheme + "://" + text, 0) == Some(|scheme|)
  {
    var all := scheme + "://" + text;
    assert SchemeAt(all, |scheme|);
    forall i: nat | i < |scheme|
      ensures !SchemeAt(all, i)
    {
      assert all[i] == scheme[i] && scheme[i] in scheme;
    }
  }

  lemma UnschemedDenotes(text: string)
    requires FindScheme(text, 0) == None && |text| > 0
    ensures Denotes(text) == FromReference(text, "https")
  {
  }

  /** Every spelling denotes what it means. */
  lemma SpelledDenotes(s: Spelling)
    requires Correct(s)
    ensures Denotes(Spelled(s)) == Some(Meaning(s))
  {
    SchemelessDenotes(s);
    if s.scheme.Some? {
      SchemedDenotes(s.scheme.value, Schemeless(s));
    } else {
      SchemelessHasNoScheme(s);
      UnschemedDenotes(Schemeless(s));
      assert Spelled(s) == Schemeless(s);
    }
  }

  // ---------------------------------------------------------------------
  // Everything that is read is a spelling
  // ---------------------------------------------------------------------

  /** The host and repository a base is made of. */
  lemma BaseIsSpelled(base: string) returns (host: Option<string>, repository: string)
    requires '@' !in base
    ensures Base(Spelling(None, host, repository, None, None)) == base
    ensures host.Some? ==> HostLike(host.value) && '/' !in host.value && '@' !in host.value
    ensures host.None? && '/' in repository ==> !HostLike(repository[..IndexOf(repository, '/')])
  {
    host, repository := None, base;
    if '/' in base {
      var i := IndexOf(base, '/');
      HostLikeIsHost(base[..i]);
      if HostLike(base[..i]) {
        host, repository := Some(base[..i]), base[i + 1..];
        assert base == base[..i] + "/" + base[i + 1..];
        assert forall c :: c in base[..i] ==> c in base;
      }
    }
  }

  lemma CutAt(name: string, i: nat)
    requires i < |name|
    ensures name == name[..i] + ([name[i]] + name[i + 1..])
  {
  }

  lemma CutAtScheme(value: string, i: nat)
    requires SchemeAt(value, i)
    ensures value == value[..i] + "://" + value[i + 3..]
  {
  }

  lemma FromNameFacts(name: string, digest: Option<string>, scheme: string)
    requires FromName(name, digest, scheme).Some?
    ensures var at := TagSeparator(name);
            && (at.Some? ==> Tag(name[at.value + 1..]))
            && Repository(Resolve(if at.Some? then name[..at.value] else name).1)
  {
  }

  lemma FromReferenceFacts(text: string, scheme: string)
    requires FromReference(text, scheme).Some?
    ensures if '@' in text then
              var i := IndexOf(text, '@');
              Digest(text[i + 1..]) && FromName(text[..i], Some(text[i + 1..]), scheme).Some?
            else FromName(text, None, scheme).Some?
  {
  }

  lemma FromSchemeFacts(value: string)
    requires Denotes(value).Some?
    ensures var at := FindScheme(value, 0);
            if at.Some? then
              (value[..at.value] == "http" || value[..at.value] == "https")
              && FromReference(value[at.value + 3..], value[..at.value]).Some?
            else FromReference(value, "https").Some?
  {
  }

  lemma SpellName(base: string, tag: Option<string>, digest: Option<string>) returns (s: Spelling)
    requires '@' !in base && Repository(Resolve(base).1) && (tag.Some? ==> Tag(tag.value))
    requires digest.Some? ==> Digest(digest.value)
    ensures Correct(s) && Base(s) == base && s.tag == tag && s.digest == digest && s.scheme == None
  {
    var host, repository := BaseIsSpelled(base);
    s := Spelling(None, host, repository, tag, digest);
    BaseResolves(s);
    FullIsRepository(s);
  }

  lemma NameIsSpelled(name: string, digest: Option<string>, scheme: string) returns (s: Spelling)
    requires '@' !in name && FromName(name, digest, scheme).Some? && (digest.Some? ==> Digest(digest.value))
    ensures Correct(s) && Name(s) == name && s.digest == digest && s.scheme == None
  {
    FromNameFacts(name, digest, scheme);
    var at := TagSeparator(name);
    if at.Some? {
      assert forall c :: c in name[..at.value] ==> c in name;
      s := SpellName(name[..at.value], Some(name[at.value + 1..]), digest);
      CutAt(name, at.value);
    } else {
      s := SpellName(name, None, digest);
    }
  }

  lemma ReferenceIsSpelled(text: string, scheme: string) returns (s: Spelling)
    requires FromReference(text, scheme).Some?
    ensures Correct(s) && Schemeless(s) == text && s.scheme == None
  {
    FromReferenceFacts(text, scheme);
    if '@' in text {
      var i := IndexOf(text, '@');
      s := NameIsSpelled(text[..i], Some(text[i + 1..]), scheme);
      CutAt(text, i);
    } else {
      s := NameIsSpelled(text, None, scheme);
    }
  }

  /** Every accepted text is a spelling of what it denotes. */
  lemma AcceptedIsSpelled(value: string) returns (s: Spelling)
    requires Denotes(value).Some?
    ensures Correct(s) && Spelled(s) == value && Meaning(s) == Denotes(value).value
  {
    FromSchemeFacts(value);
    var at := FindScheme(value, 0);
    if at.Some? {
      s := ReferenceIsSpelled(value[at.value + 3..], value[..at.value]);
      s := s.(scheme := Some(value[..at.value]));
      CutAtScheme(value, at.value);
      assert Schemeless(s) == value[at.value + 3..];
    } else {
      s := ReferenceIsSpelled(value, "https");
      assert Spelled(s) == Schemeless(s);
    }
    SpelledDenotes(s);
  }

  /** The parser accepts exactly the spellings, and reads each as it is meant. */
  lemma DenotesExactly(value: string, r: Reference)
    ensures Denotes(value) == Some(r) <==> exists s :: Correct(s) && Spelled(s) == value && Meaning(s) == r
  {
    if Denotes(value).Some? {
      var s := AcceptedIsSpelled(value);
    }
    forall s | Correct(s) && Spelled(s) == value
      ensures Denotes(value) == Some(Meaning(s))
    {
      SpelledDenotes(s);
    }
  }
}
