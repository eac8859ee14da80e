/** Parsing and printing of OCI image references. */
module ImageReference {
  import opened Common

  datatype Reference = Reference(registry: string, repository: string, tag: string, digest: Option<string>)

  const HUB := "registry-1.docker.io"

  // ----- string searches

  /** Position of the first `c`, or the length. */
  function Find(s: string, c: char): (k: nat)
    ensures k <= |s| && (k < |s| ==> s[k] == c)
    ensures forall i | 0 <= i < k :: s[i] != c
  {
    if s == "" || s[0] == c then 0
    else
      var k := Find(s[1..], c);
      assert forall i | 0 < i < k + 1 :: s[i] == s[1..][i - 1];
      k + 1
  }

  /** Position of the last `c`, or -1. */
  function FindLast(s: string, c: char): (k: int)
    ensures -1 <= k < |s| && (k >= 0 ==> s[k] == c)
    ensures forall i | k < i < |s| :: s[i] != c
  {
    if s == "" then -1
    else if s[|s| - 1] == c then |s| - 1
    else FindLast(s[..|s| - 1], c)
  }

  /** `char::is_whitespace` (Unicode White_Space). */
  predicate Whitespace(c: char) {
    var n := c as int;
    || 0x9 <= n <= 0xD || n == 0x20 || n == 0x85 || n == 0xA0 || n == 0x1680 || 0x2000 <= n <= 0x200A
    || n == 0x2028 || n == 0x2029 || n == 0x202F || n == 0x205F || n == 0x3000
  }

  predicate Trimmed(s: string) { s == "" || (!Whitespace(s[0]) && !Whitespace(s[|s| - 1])) }

  function TrimStart(s: string): (r: string)
    ensures r == "" || !Whitespace(r[0])
    ensures s != "" && !Whitespace(s[0]) ==> r == s
  {
    if s != "" && Whitespace(s[0]) then TrimStart(s[1..]) else s
  }

  function TrimEnd(s: string): (r: string)
    ensures r <= s
    ensures r == "" || !Whitespace(r[|r| - 1])
    ensures s != "" && !Whitespace(s[|s| - 1]) ==> r == s
  {
    if s != "" && Whitespace(s[|s| - 1]) then TrimEnd(s[..|s| - 1]) else s
  }

  function Trim(s: string): (r: string)
    ensures Trimmed(r)
    ensures Trimmed(s) ==> r == s
  {
    TrimEnd(TrimStart(s))
  }

  // ----- parsing

  /** Name and tag: a colon starts a tag only after the last slash (and not at position 0). */
  function SplitTag(nameTag: string): (string, string) {
    var colon, slash := FindLast(nameTag, ':'), FindLast(nameTag, '/');
    if colon >= 0 && colon > (if slash >= 0 then slash else 0)
    then (nameTag[..colon], nameTag[colon + 1..])
    else (nameTag, "latest")
  }

  predicate LooksLikeRegistry(s: string) { '.' in s || ':' in s || s == "localhost" }

  function Normalized(registry: string): string {
    if registry == "docker.io" || registry == "index.docker.io" then HUB else registry
  }

  /** Registry and repository. */
  function SplitRegistry(name: string): (string, string) {
    var slash := Find(name, '/');
    if slash == |name| then (HUB, "library/" + name)
    else if LooksLikeRegistry(name[..slash]) then (Normalized(name[..slash]), name[slash + 1..])
    else (HUB, name)
  }

  /** The reference named by the text before the digest, if any. */
  function Named(nameTag: string, digest: Option<string>): Reference {
    var (name, tag) := SplitTag(nameTag);
    var (registry, repository) := SplitRegistry(name);
    Reference(registry, repository, tag, digest)
  }

  function ParseTrimmed(input: string): Option<Reference> {
    var at := Find(input, '@');
    if at == |input| then Some(Named(input, None))
    else if "sha256:" <= input[at + 1..] then Some(Named(input[..at], Some(input[at + 1..])))
    else None
  }

  function Parse(text: string): Option<Reference> {
    if Trim(text) == "" then None else ParseTrimmed(Trim(text))
  }

  function Canonical(r: Reference): string {
    r.registry + "/" + r.repository + (if r.digest.Some? then "@" + r.digest.value else ":" + r.tag)
  }

  // ----- what a parsed reference looks like

  /** Facts every parsed reference has, and all that printing needs. */
  ghost predicate Shaped(r: Reference) {
    && RegistryShaped(r.registry) && '@' !in r.repository
    && (r.digest.None? ==>
          && Plain(r.tag)
          && (r.tag == "" || !Whitespace(r.tag[|r.tag| - 1])))
    && (r.digest.Some? ==> "sha256:" <= r.digest.value && !Whitespace(r.digest.value[|r.digest.value| - 1]))
  }

  lemma SliceLacks(s: string, i: nat, j: nat, c: char)
    requires i <= j <= |s| && c !in s
    ensures c !in s[i..j]
  {
  }

  lemma LaterSuffixLacks(s: string, i: nat, j: nat, c: char)
    requires i <= j <= |s| && c !in s[i..]
    ensures c !in s[j..]
  {
    assert s[j..] == s[i..][j - i..];
  }

  /** No slash, colon or at sign. */
  predicate Plain(tag: string) { '/' !in tag && ':' !in tag && '@' !in tag }

  lemma LatestIsPlain()
    ensures Plain("latest") && !Whitespace("latest"[5])
  {
  }

  /** A split tag is plain, and ends where the text ends unless it was defaulted. */
  lemma SplitTagShape(s: string, name: string, tag: string)
    requires '@' !in s && (name, tag) == SplitTag(s)
    ensures Plain(tag) && '@' !in name && name <= s && (name == "" ==> s == "")
    ensures tag == "latest" || tag == "" || tag[|tag| - 1] == s[|s| - 1]
  {
    var colon, slash := FindLast(s, ':'), FindLast(s, '/');
    if colon >= 0 && colon > (if slash >= 0 then slash else 0) {
      LaterSuffixLacks(s, slash + 1, colon + 1, '/');
      SliceLacks(s, 0, colon, '@');
      SliceLacks(s, colon + 1, |s|, '@');
    } else {
      LatestIsPlain();
    }
  }

  ghost predicate RegistryShaped(registry: string) {
    && registry != "" && !Whitespace(registry[0]) && '/' !in registry && '@' !in registry
    && LooksLikeRegistry(registry) && Normalized(registry) == registry
  }

  lemma HubIsShaped()
    ensures RegistryShaped(HUB)
  {
    assert HUB[10] == '.';
  }

  lemma SplitRegistryShape(name: string, registry: string, repository: string)
    requires '@' !in name && (name == "" || !Whitespace(name[0]))
    requires (registry, repository) == SplitRegistry(name)
    ensures RegistryShaped(registry) && '@' !in repository
  {
    HubIsShaped();
    var slash := Find(name, '/');
    if slash == |name| {
      assert '@' !in "library/";
    } else {
      SliceLacks(name, 0, slash, '@');
      SliceLacks(name, slash + 1, |name|, '@');
      assert slash == 0 ==> name[..slash] == "";
    }
  }

  lemma NamedIsShaped(nameTag: string, digest: Option<string>)
    requires '@' !in nameTag && (nameTag == "" || !Whitespace(nameTag[0]))
    ensures
      var r := Named(nameTag, digest);
      && r.digest == digest
      && RegistryShaped(r.registry) && '@' !in r.repository && Plain(r.tag)
      && (r.tag == "latest" || r.tag == "" || r.tag[|r.tag| - 1] == nameTag[|nameTag| - 1])
  {
    hide RegistryShaped, Plain, SplitTag, SplitRegistry, Whitespace;
    var (name, tag) := SplitTag(nameTag);
    SplitTagShape(nameTag, name, tag);
    var (registry, repository) := SplitRegistry(name);
    SplitRegistryShape(name, registry, repository);
  }

  lemma ParsedIsShaped(input: string)
    requires Trimmed(input) && input != "" && ParseTrimmed(input).Some?
    ensures Shaped(ParseTrimmed(input).value)
  {
    hide RegistryShaped, Plain, Named, Whitespace;
    var at := Find(input, '@');
    LatestIsPlain();
    if at == |input| {
      assert input[..at] == input;
      NamedIsShaped(input, None);
    } else {
      NamedIsShaped(input[..at], Some(input[at + 1..]));
      assert input[at + 1..][|input| - at - 2] == input[|input| - 1];
    }
  }

  // ----- parsing what was printed

  lemma FindAt(a: string, c: char, b: string)
    requires c !in a
    ensures Find(a + [c] + b, c) == |a|
  {
    hide Find;
    var s := a + [c] + b;
    assert s[|a|] == c;
    assert forall i | 0 <= i < |a| :: s[i] == a[i];
  }

  lemma FindNowhere(a: string, c: char)
    requires c !in a
    ensures Find(a, c) == |a|
  {
    hide Find;
  }

  lemma PastTheMiddle(a: string, c: char, b: string, i: nat)
    requires |a| < i <= |a| + |b| && c !in b
    ensures (a + [c] + b)[i] != c
  {
    assert (a + [c] + b)[i] == b[i - |a| - 1];
  }

  lemma FindLastIs(s: string, c: char, k: nat)
    requires k < |s| && s[k] == c && forall i | k < i < |s| :: s[i] != c
    ensures FindLast(s, c) == k
  {
    hide FindLast;
  }

  lemma FindLastAt(a: string, c: char, b: string)
    requires c !in b
    ensures FindLast(a + [c] + b, c) == |a|
  {
    hide FindLast;
    var s := a + [c] + b;
    forall i | |a| < i < |s| ensures s[i] != c {
      PastTheMiddle(a, c, b, i);
    }
    FindLastIs(s, c, |a|);
  }

  /** A search from the end stops in the second of two parts if it can. */
  lemma FindLastAfter(prefix: string, s: string, c: char)
    ensures FindLast(s, c) >= 0 ==> FindLast(prefix + s, c) == |prefix| + FindLast(s, c)
    ensures FindLast(s, c) < 0 ==> FindLast(prefix + s, c) == FindLast(prefix, c)
  {
    hide FindLast;
    var whole := prefix + s;
    assert forall i | 0 <= i < |prefix| :: whole[i] == prefix[i];
    assert forall i | 0 <= i < |s| :: whole[|prefix| + i] == s[i];
    assert forall i | |prefix| <= i < |whole| :: whole[i] == s[i - |prefix|];
  }

  /** The registry and repository of a printed name are read back. */
  lemma SplitRegistryBack(registry: string, repository: string)
    requires RegistryShaped(registry)
    ensures SplitRegistry(registry + "/" + repository) == (registry, repository)
  {
    hide Find;
    var name := registry + "/" + repository;
    FindAt(registry, '/', repository);
    assert name[..|registry|] == registry && name[|registry| + 1..] == repository;
  }

  /** The tag of a printed name is read back. */
  lemma SplitTagBack(registry: string, repository: string, tag: string)
    requires registry != "" && Plain(tag)
    ensures SplitTag(registry + "/" + repository + ":" + tag) == (registry + "/" + repository, tag)
  {
    hide FindLast;
    var name := registry + "/" + repository;
    var s := name + ":" + tag;
    FindLastAt(name, ':', tag);
    assert s == name + (":" + tag);
    FindLastAfter(name, ":" + tag, '/');
    assert s[..|name|] == name && s[|name| + 1..] == tag;
  }

  lemma NoAt(a: string, b: string, c: string)
    requires '@' !in a && '@' !in b && '@' !in c
    ensures '@' !in a + "/" + b + ":" + c && '@' !in a + "/" + b
  {
  }

  /**
   Round trip. Printing any parsed reference without a digest and parsing it again gives the
   same registry, repository and tag.
   */
  lemma TaggedRoundTrip(text: string)
    requires Parse(text).Some? && Parse(text).value.digest.None?
    ensures Parse(Canonical(Parse(text).value)) == Parse(text)
  {
    hide RegistryShaped, Plain, Whitespace, SplitTag, SplitRegistry;
    ParsedIsShaped(Trim(text));
    var r := Parse(text).value;
    PrintedIsTrimmed(r);
    var name := r.registry + "/" + r.repository;
    var s := name + ":" + r.tag;
    ShapedHasNoAt(r);
    NoAt(r.registry, r.repository, r.tag);
    FindNowhere(s, '@');
    SplitTagBack(r.registry, r.repository, r.tag);
    SplitRegistryBack(r.registry, r.repository);
    assert Canonical(r) == s;
  }

  lemma ShapedHasNoAt(r: Reference)
    requires Shaped(r)
    ensures r.registry != "" && '@' !in r.registry && '@' !in r.repository && (r.digest.None? ==> '@' !in r.tag)
  {
    hide Whitespace, LooksLikeRegistry, Normalized;
  }

  lemma PrintedIsTrimmed(r: Reference)
    requires Shaped(r)
    ensures Trimmed(Canonical(r)) && Canonical(r) != ""
  {
    hide LooksLikeRegistry, Normalized;
    var s := Canonical(r);
    assert s[0] == r.registry[0];
  }

  // ----- references with a digest

  /** The repository's last path segment contains a colon. */
  predicate ColonInLastSegment(repository: string) {
    FindLast(repository, ':') > FindLast(repository, '/')
  }

  /** Without a tag part, a printed name is split only at a colon in its last segment. */
  lemma SplitTagOfBareName(registry: string, repository: string)
    requires registry != ""
    ensures
      var name := registry + "/" + repository;
      SplitTag(name).0 == name <==> !ColonInLastSegment(repository)
  {
    hide FindLast;
    var prefix := registry + "/";
    FindLastAfter(prefix, repository, ':');
    FindLastAfter(prefix, repository, '/');
    FindLastAt(registry, '/', "");
    assert registry + ['/'] + "" == prefix;
    assert FindLast(prefix, '/') == |registry| && FindLast(prefix, ':') < |registry|;
  }

  /**
   With a digest, the printed form is a fixed point of parse-then-print if and only if the
   repository's last segment has no colon; otherwise the colon's tail is taken for a tag and
   lost.
   */
  lemma DigestFixedPointIff(text: string)
    requires Parse(text).Some? && Parse(text).value.digest.Some?
    ensures
      var r := Parse(text).value;
      && Parse(Canonical(r)).Some?
      && (Canonical(Parse(Canonical(r)).value) == Canonical(r) <==> !ColonInLastSegment(r.repository))
      && (!ColonInLastSegment(r.repository) ==>
            && Parse(Canonical(r)).value.registry == r.registry
            && Parse(Canonical(r)).value.repository == r.repository
            && Parse(Canonical(r)).value.digest == r.digest)
  {
    hide RegistryShaped, Plain, Whitespace, SplitTag, SplitRegistry, ColonInLastSegment, Named, Trim, Find;
    ParsedIsShaped(Trim(text));
    var r := Parse(text).value;
    hide Parse;
    PrintedDigestParses(r);
    ShapedHasNoAt(r);
    SplitTagOfBareName(r.registry, r.repository);
    NameIsRebuilt(r.registry, r.repository, r.digest);
  }

  lemma PrintedDigestParses(r: Reference)
    requires Shaped(r) && r.digest.Some?
    ensures Parse(Canonical(r)) == Some(Named(r.registry + "/" + r.repository, r.digest))
  {
    hide RegistryShaped, Plain, Whitespace, Named, Find, TrimStart, TrimEnd;
    PrintedIsTrimmed(r);
    ShapedHasNoAt(r);
    var name, digest := r.registry + "/" + r.repository, r.digest.value;
    NoAt(r.registry, r.repository, "");
    FindAt(name, '@', digest);
    var s := name + "@" + digest;
    assert Canonical(r) == s;
    assert s[..|name|] == name && s[|name| + 1..] == digest;
  }

  /** A colon taken for the start of a tag lies after the registry. */
  lemma SplitLeavesRegistry(registry: string, repository: string)
    requires registry != ""
    ensures
      var name := registry + "/" + repository;
      SplitTag(name).0 != name ==> SplitTag(name).0 == name[..FindLast(name, ':')] && |registry| < FindLast(name, ':')
  {
    hide FindLast;
    var prefix := registry + "/";
    FindLastAfter(prefix, repository, '/');
    FindLastAt(registry, '/', "");
    assert registry + ['/'] + "" == prefix;
  }

  /** Printing a reparsed name gives the name up to the tag that was split off. */
  lemma NameIsRebuilt(registry: string, repository: string, digest: Option<string>)
    requires RegistryShaped(registry) && digest.Some?
    ensures
      var name := registry + "/" + repository;
      var back := Named(name, digest);
      && back.digest == digest
      && (SplitTag(name).0 == name ==> back.registry == registry && back.repository == repository)
      && (SplitTag(name).0 != name ==> |back.registry| + 1 + |back.repository| < |name|)
  {
    var name := registry + "/" + repository;
    SplitRegistryBack(registry, repository);
    if SplitTag(name).0 != name {
      SplitLeavesRegistry(registry, repository);
      var colon := FindLast(name, ':');
      var shorter := name[|registry| + 1..colon];
      assert name[..colon] == registry + "/" + shorter;
      SplitRegistryBack(registry, shorter);
    }
  }

  lemma TwoTagsSplit()
    ensures SplitTag("a:b:c") == ("a:b", "c")
  {
    hide FindLast;
    var s := "a:b:c";
    assert s == "a:b" + ":" + "c";
    FindLastAt("a:b", ':', "c");
    assert s[..3] == "a:b" && s[4..] == "c";
    assert forall i | 0 <= i < |s| :: s[i] != '/';
  }

  lemma OneTagStays()
    ensures SplitRegistry("a:b") == (HUB, "library/a:b") && ColonInLastSegment("library/a:b")
  {
    hide Find, FindLast;
    FindNowhere("a:b", '/');
    assert "library/" + "a:b" == "library/a:b";
    FindLastAt("library/a", ':', "b");
    assert "library/a" + ":" + "b" == "library/a:b";
    FindLastAt("library", '/', "a:b");
    assert "library" + "/" + "a:b" == "library/a:b";
  }

  lemma TwoTagsParse()
    ensures Parse("a:b:c@sha256:0") == Some(Reference(HUB, "library/a:b", "c", Some("sha256:0")))
  {
    hide Find, SplitTag, SplitRegistry, Trim, Whitespace;
    var text, digest := "a:b:c@sha256:0", "sha256:0";
    FindAt("a:b:c", '@', digest);
    assert text == "a:b:c" + "@" + digest;
    assert text[..5] == "a:b:c" && text[6..] == digest;
    assert "sha256:" <= digest;
    TwoTagsSplit();
    OneTagStays();
    assert !Whitespace('a') && !Whitespace('0') by { LettersArePrinted(); }
  }

  lemma LettersArePrinted()
    ensures !Whitespace('a') && !Whitespace('0')
  {
  }

  /** The failing family is not empty: a digest after two tags loses one of them. */
  lemma DigestCounterexample()
    ensures Parse("a:b:c@sha256:0") == Some(Reference(HUB, "library/a:b", "c", Some("sha256:0")))
    ensures
      var r := Parse("a:b:c@sha256:0").value;
      && Parse(Canonical(r)).Some?
      && Canonical(Parse(Canonical(r)).value) != Canonical(r)
  {
    hide *;
    TwoTagsParse();
    OneTagStays();
    DigestFixedPointIff("a:b:c@sha256:0");
  }

  // ----- what the usual spellings mean

  /** Text without an at sign that ends in a tag is split there, whatever comes before. */
  lemma TaggedText(name: string, tag: string)
    requires name != "" && '@' !in name && Plain(tag) && Trimmed(name + ":" + tag)
    ensures Parse(name + ":" + tag) ==
      Some(Reference(SplitRegistry(name).0, SplitRegistry(name).1, tag, None))
  {
    hide Find, FindLast, SplitRegistry, Whitespace;
    var s := name + ":" + tag;
    FindNowhere(s, '@');
    FindLastAt(name, ':', tag);
    assert s == name + (":" + tag);
    FindLastAfter(name, ":" + tag, '/');
    assert s[..|name|] == name && s[|name| + 1..] == tag;
  }

  /** Without a colon after its last slash, text is a name with the default tag. */
  lemma UntaggedText(name: string)
    requires name != "" && '@' !in name && Trimmed(name) && FindLast(name, ':') <= FindLast(name, '/')
    ensures Parse(name) == Some(Reference(SplitRegistry(name).0, SplitRegistry(name).1, "latest", None))
  {
    hide Find, FindLast, SplitRegistry, Whitespace;
    FindNowhere(name, '@');
  }

  /** A name with a slash: a registry if its first segment looks like one, else a Docker Hub user. */
  lemma SlashedName(first: string, rest: string)
    requires '/' !in first
    ensures SplitRegistry(first + "/" + rest) ==
      if LooksLikeRegistry(first) then (Normalized(first), rest) else (HUB, first + "/" + rest)
  {
    hide Find;
    var name := first + "/" + rest;
    FindAt(first, '/', rest);
    assert name[..|first|] == first && name[|first| + 1..] == rest;
  }

  /** A name without a slash is an official image. */
  lemma BareName(name: string)
    requires '/' !in name
    ensures SplitRegistry(name) == (HUB, "library/" + name)
  {
    FindNowhere(name, '/');
  }

  /** `user/app:tag` is the user's repository on Docker Hub; `registry/app:tag` is the registry's. */
  lemma SlashedReference(first: string, rest: string, tag: string)
    requires first != "" && '/' !in first && '@' !in first && '@' !in rest && Plain(tag)
    requires Trimmed(first + "/" + rest + ":" + tag)
    ensures
      var r := Parse(first + "/" + rest + ":" + tag);
      if first == "docker.io" || first == "index.docker.io" then r == Some(Reference("registry-1.docker.io", rest, tag, None))
      else if '.' in first || ':' in first || first == "localhost" then r == Some(Reference(first, rest, tag, None))
      else r == Some(Reference("registry-1.docker.io", first + "/" + rest, tag, None))
  {
    hide SplitRegistry, Whitespace, Parse, Plain;
    assert "docker.io"[6] == '.' && "index.docker.io"[5] == '.';
    TaggedText(first + "/" + rest, tag);
    SlashedName(first, rest);
  }

  /** `app` and `app:tag` are official images on Docker Hub; the tag defaults to latest. */
  lemma BareReference(name: string, tag: string)
    requires name != "" && '/' !in name && '@' !in name && ':' !in name && Plain(tag)
    requires Trimmed(name) && Trimmed(name + ":" + tag)
    ensures Parse(name) == Some(Reference("registry-1.docker.io", "library/" + name, "latest", None))
    ensures Parse(name + ":" + tag) == Some(Reference("registry-1.docker.io", "library/" + name, tag, None))
  {
    assert FindLast(name, ':') < 0 && FindLast(name, '/') < 0;
    hide SplitRegistry, Whitespace, Parse, Plain, FindLast;
    UntaggedText(name);
    TaggedText(name, tag);
    BareName(name);
  }

  /** A registry's port is not taken for a tag. */
  lemma PortIsNoTag(host: string, port: string, rest: string)
    requires host != "" && '/' !in host && '@' !in host && '/' !in port && '@' !in port && '@' !in rest && ':' !in rest
    requires Trimmed(host + ":" + port + "/" + rest)
    ensures
      var first := host + ":" + port;
      first != "docker.io" && first != "index.docker.io" ==>
        Parse(first + "/" + rest) == Some(Reference(first, rest, "latest", None))
  {
    var first := host + ":" + port;
    var name := first + "/" + rest;
    assert first[|host|] == ':';
    assert name == first + ("/" + rest);
    FindLastAfter(first, "/" + rest, ':');
    FindLastAfter(first, "/" + rest, '/');
    hide SplitRegistry, Whitespace, Parse, Plain;
    assert ("/" + rest)[0] == '/';
    UntaggedText(name);
    SlashedName(first, rest);
  }

  /** What follows the first at sign must be a SHA-256 digest; it does not take part in the name. */
  lemma DigestReference(name: string, digest: string)
    requires '@' !in name && Trimmed(name + "@" + digest)
    ensures
      var r := Parse(name + "@" + digest);
      && (r.Some? <==> "sha256:" <= digest)
      && (r.Some? ==> r.value.digest == Some(digest))
      && (r.Some? && name != "" && Trimmed(name) ==>
            Parse(name).Some? && r.value == Parse(name).value.(digest := Some(digest)))
  {
    hide SplitTag, SplitRegistry, Find, Whitespace;
    var s := name + "@" + digest;
    FindAt(name, '@', digest);
    FindNowhere(name, '@');
    assert s[..|name|] == name && s[|name| + 1..] == digest;
  }

  lemma AsciiBlanks(c: char)
    requires c as int < 128
    ensures Whitespace(c) <==> c as int in {9, 10, 11, 12, 13, 32}
  {
  }

  predicate Blank(s: string) { forall i | 0 <= i < |s| :: Whitespace(s[i]) }

  lemma {:induction false} TrimStartDropsBlank(blank: string, s: string)
    requires Blank(blank)
    ensures TrimStart(blank + s) == TrimStart(s)
    decreases |blank|
  {
    hide Whitespace;
    if blank == "" {
      assert blank + s == s;
    } else {
      assert Whitespace(blank[0]) && (blank + s)[1..] == blank[1..] + s;
      TrimStartDropsBlank(blank[1..], s);
    }
  }

  lemma {:induction false} TrimEndDropsBlank(s: string, blank: string)
    requires Blank(blank)
    ensures TrimEnd(s + blank) == TrimEnd(s)
    decreases |blank|
  {
    hide Whitespace;
    if blank == "" {
      assert s + blank == s;
    } else {
      var n := |blank| - 1;
      assert Whitespace(blank[n]) && (s + blank)[..|s + blank| - 1] == s + blank[..n];
      TrimEndDropsBlank(s, blank[..n]);
    }
  }

  /** Blanks around a reference do not matter, and blanks alone are none. */
  lemma SurroundingBlanksAreIgnored(before: string, s: string, after: string)
    requires Blank(before) && Blank(after) && Trimmed(s)
    ensures Parse(before + s + after) == Parse(s) && (s == "" ==> Parse(s).None?)
  {
    hide Whitespace, ParseTrimmed, Blank;
    assert before + s + after == before + (s + after);
    TrimStartDropsBlank(before, s + after);
    if s == "" {
      assert s + after == after && after + "" == after;
      TrimStartDropsBlank(after, "");
    } else {
      assert (s + after)[0] == s[0];
      TrimEndDropsBlank(s, after);
    }
  }
}
