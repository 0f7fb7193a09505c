/** Paths of source files hosted online, written as one string
    (samply-symbols/src/mapped_path.rs). */
module MappedPaths {
  import opened Prelude

  datatype MappedPath =
    | Git(repo: string, path: string, rev: string)
    | Hg(repo: string, path: string, rev: string)
    | S3(bucket: string, digest: string, path: string)
    | Cargo(registry: string, crateName: string, version: string, path: string)

  function Print(m: MappedPath): string {
    match m
    case Git(repo, path, rev) => "git:" + (repo + ":" + (path + ":" + rev))
    case Hg(repo, path, rev) => "hg:" + (repo + ":" + (path + ":" + rev))
    case S3(bucket, digest, path) => "s3:" + (bucket + ":" + (digest + "/" + (path + ":" + "")))
    case Cargo(registry, crateName, version, path) =>
      "cargo:" + (registry + ":" + ((crateName + "-" + version) + ":" + path))
  }

  // ----- the parser's building blocks -----

  /** `tag`: the input behind a fixed prefix. */
  function Tag(t: string, input: string): Option<string> {
    if t <= input then Some(input[|t|..]) else None
  }

  function Find(s: string, c: char): (r: Option<nat>)
    ensures r.Some? ==> r.value < |s| && s[r.value] == c && c !in s[..r.value]
    ensures r.None? ==> c !in s
  {
    if s == [] then None
    else if s[0] == c then Some(0)
    else
      match Find(s[1..], c)
      case Some(i) => assert s[..i + 1] == [s[0]] + s[1..][..i]; Some(i + 1)
      case None => None
  }

  /** `rfind` */
  function FindLast(s: string, c: char): (r: Option<nat>)
    ensures r.Some? ==> r.value < |s| && s[r.value] == c && c !in s[r.value + 1..]
    ensures r.None? ==> c !in s
  {
    if s == [] then None
    else if s[|s| - 1] == c then Some(|s| - 1)
    else
      match FindLast(s[..|s| - 1], c)
      case Some(i) => assert s[i + 1..] == s[..|s| - 1][i + 1..] + [s[|s| - 1]]; Some(i)
      case None => None
  }

  /** `terminated(take_until1(stop), tag(stop))`: a non-empty part up to the first delimiter, and the
      input behind the delimiter. */
  function Part(input: string, stop: char): (r: Option<(string, string)>)
    ensures r.Some? ==> input == r.value.0 + [stop] + r.value.1 && r.value.0 != [] && stop !in r.value.0
  {
    match Find(input, stop)
    case Some(i) => if i == 0 then None else Some((input[..i], input[i + 1..]))
    case None => None
  }

  function RevisionPath(t: string, input: string): Option<(string, string, string)> {
    match Tag(t, input)
    case None => None
    case Some(i0) =>
      match Part(i0, ':')
      case None => None
      case Some((repo, i1)) =>
        match Part(i1, ':')
        case None => None
        case Some((path, rev)) => Some((repo, path, rev))
  }

  function S3Path(input: string): Option<(string, string, string)> {
    match Tag("s3:", input)
    case None => None
    case Some(i0) =>
      match Part(i0, ':')
      case None => None
      case Some((bucket, i1)) =>
        match Part(i1, '/')
        case None => None
        case Some((digest, i2)) =>
          match Part(i2, ':')
          case None => None
          case Some((path, end)) => if end == "" then Some((bucket, digest, path)) else None
  }

  function CargoPath(input: string): Option<(string, string, string, string)> {
    match Tag("cargo:", input)
    case None => None
    case Some(i0) =>
      match Part(i0, ':')
      case None => None
      case Some((registry, i1)) =>
        match Part(i1, ':')
        case None => None
        case Some((crateNameAndVersion, path)) =>
          match FindLast(crateNameAndVersion, '-')
          case None => None
          case Some(pos) => Some((registry, crateNameAndVersion[..pos], crateNameAndVersion[pos + 1..], path))
  }

  /** The alternatives are tried in order. */
  function Parse(s: string): Option<MappedPath> {
    match RevisionPath("git:", s)
    case Some((repo, path, rev)) => Some(Git(repo, path, rev))
    case None =>
      match RevisionPath("hg:", s)
      case Some((repo, path, rev)) => Some(Hg(repo, path, rev))
      case None =>
        match S3Path(s)
        case Some((bucket, digest, path)) => Some(S3(bucket, digest, path))
        case None =>
          match CargoPath(s)
          case Some((registry, crateName, version, path)) => Some(Cargo(registry, crateName, version, path))
          case None => None
  }

  // ----- which paths survive -----

  predicate Delimited(part: string, stop: char) {
    part != [] && stop !in part
  }

  /** Each part can be told from its neighbours. The last part may be anything. */
  predicate Representable(m: MappedPath) {
    match m
    case Git(repo, path, _) => Delimited(repo, ':') && Delimited(path, ':')
    case Hg(repo, path, _) => Delimited(repo, ':') && Delimited(path, ':')
    case S3(bucket, digest, path) => Delimited(bucket, ':') && Delimited(digest, '/') && Delimited(path, ':')
    case Cargo(registry, crateName, version, _) =>
      Delimited(registry, ':') && ':' !in crateName && ':' !in version && '-' !in version
  }

  lemma {:induction false} FindAt(a: string, c: char, b: string)
    requires c !in a
    ensures Find(a + [c] + b, c) == Some(|a|)
  {
    var s := a + [c] + b;
    if a != [] {
      assert s[1..] == a[1..] + [c] + b;
      FindAt(a[1..], c, b);
      assert a[0] in a;
    }
  }

  lemma {:induction false} FindLastAt(a: string, c: char, b: string)
    requires c !in b
    ensures FindLast(a + [c] + b, c) == Some(|a|)
  {
    var s := a + [c] + b;
    if b != [] {
      assert s[..|s| - 1] == a + [c] + b[..|b| - 1];
      FindLastAt(a, c, b[..|b| - 1]);
      assert b[|b| - 1] in b;
    }
  }

  lemma PartOf(part: string, stop: char, rest: string)
    requires Delimited(part, stop)
    ensures Part(part + [stop] + rest, stop) == Some((part, rest))
  {
    FindAt(part, stop, rest);
    var s := part + [stop] + rest;
    assert s[..|part|] == part && s[|part| + 1..] == rest;
  }

  lemma TagOf(t: string, rest: string)
    ensures Tag(t, t + rest) == Some(rest)
  {
    assert (t + rest)[|t|..] == rest;
  }

  lemma TagsDiffer(t: string, u: string, rest: string)
    requires t != [] && u != [] && t[0] != u[0]
    ensures Tag(t, u + rest) == None
  {
    assert (u + rest)[0] == u[0];
  }

  lemma RevisionPathOf(t: string, repo: string, path: string, rev: string)
    requires Delimited(repo, ':') && Delimited(path, ':')
    ensures RevisionPath(t, t + (repo + ":" + (path + ":" + rev))) == Some((repo, path, rev))
  {
    TagOf(t, repo + ":" + (path + ":" + rev));
    PartOf(repo, ':', path + ":" + rev);
    PartOf(path, ':', rev);
  }

  lemma S3PathOf(bucket: string, digest: string, path: string)
    requires Delimited(bucket, ':') && Delimited(digest, '/') && Delimited(path, ':')
    ensures S3Path(Print(S3(bucket, digest, path))) == Some((bucket, digest, path))
  {
    TagOf("s3:", bucket + ":" + (digest + "/" + (path + ":" + "")));
    PartOf(bucket, ':', digest + "/" + (path + ":" + ""));
    PartOf(digest, '/', path + ":" + "");
    PartOf(path, ':', "");
  }

  lemma CargoPathOf(registry: string, crateName: string, version: string, path: string)
    requires Delimited(registry, ':') && ':' !in crateName && ':' !in version && '-' !in version
    ensures CargoPath(Print(Cargo(registry, crateName, version, path))) == Some((registry, crateName, version, path))
  {
    var both := crateName + "-" + version;
    assert ':' !in both && both != "";
    hide Part, Find, FindLast, Tag;
    TagOf("cargo:", registry + ":" + (both + ":" + path));
    PartOf(registry, ':', both + ":" + path);
    PartOf(both, ':', path);
    FindLastAt(crateName, '-', version);
    assert both[..|crateName|] == crateName && both[|crateName| + 1..] == version;
  }

  /** The alternatives exclude each other. */
  lemma OtherTagsFail(m: MappedPath)
    ensures !m.Git? ==> RevisionPath("git:", Print(m)) == None
    ensures !m.Hg? ==> RevisionPath("hg:", Print(m)) == None
    ensures !m.S3? ==> S3Path(Print(m)) == None
  {
    var tag := match m case Git(_, _, _) => "git:" case Hg(_, _, _) => "hg:" case S3(_, _, _) => "s3:" case Cargo(_, _, _, _) => "cargo:";
    var rest := Print(m)[|tag|..];
    assert Print(m) == tag + rest;
    if !m.Git? {
      TagsDiffer("git:", tag, rest);
    }
    if !m.Hg? {
      TagsDiffer("hg:", tag, rest);
    }
    if !m.S3? {
      TagsDiffer("s3:", tag, rest);
    }
  }

  lemma RepresentableParses(m: MappedPath)
    requires Representable(m)
    ensures Parse(Print(m)) == Some(m)
  {
    OtherTagsFail(m);
    match m {
      case Git(repo, path, rev) => RevisionPathOf("git:", repo, path, rev);
      case Hg(repo, path, rev) => RevisionPathOf("hg:", repo, path, rev);
      case S3(bucket, digest, path) => S3PathOf(bucket, digest, path);
      case Cargo(registry, crateName, version, path) => CargoPathOf(registry, crateName, version, path);
    }
  }

  lemma TagIsPrefix(t: string, input: string)
    requires Tag(t, input).Some?
    ensures input == t + Tag(t, input).value
  {
  }

  lemma RevisionPathPrints(t: string, s: string)
    requires RevisionPath(t, s).Some?
    ensures var (repo, path, rev) := RevisionPath(t, s).value;
      s == t + (repo + ":" + (path + ":" + rev)) && Delimited(repo, ':') && Delimited(path, ':')
  {
    TagIsPrefix(t, s);
    var (repo, path, rev) := RevisionPath(t, s).value;
    assert repo + ":" + (path + ":" + rev) == Tag(t, s).value;
  }

  lemma S3PathPrints(s: string)
    requires S3Path(s).Some?
    ensures var (bucket, digest, path) := S3Path(s).value;
      s == Print(S3(bucket, digest, path)) && Representable(S3(bucket, digest, path))
  {
    TagIsPrefix("s3:", s);
  }

  lemma NotInParts(whole: string, a: string, b: string, c: char)
    requires whole == a + b && c !in whole
    ensures c !in a && c !in b
  {
    assert forall i :: 0 <= i < |a| ==> whole[i] == a[i];
    assert forall i :: 0 <= i < |b| ==> whole[|a| + i] == b[i];
  }

  lemma VersionSplits(both: string, pos: nat)
    requires FindLast(both, '-') == Some(pos) && ':' !in both
    ensures both == both[..pos] + "-" + both[pos + 1..]
    ensures ':' !in both[..pos] && ':' !in both[pos + 1..] && '-' !in both[pos + 1..]
  {
    NotInParts(both, both[..pos], both[pos..], ':');
    NotInParts(both[pos..], "-", both[pos + 1..], ':');
  }

  lemma CargoPathPrints(s: string)
    requires CargoPath(s).Some?
    ensures var (registry, crateName, version, path) := CargoPath(s).value;
      s == Print(Cargo(registry, crateName, version, path)) && Representable(Cargo(registry, crateName, version, path))
  {
    TagIsPrefix("cargo:", s);
    var (registry, i1) := Part(Tag("cargo:", s).value, ':').value;
    var (both, path) := Part(i1, ':').value;
    VersionSplits(both, FindLast(both, '-').value);
    hide Tag, Part, Find, FindLast;
  }

  /** Whatever string is accepted is printed again, character by character, and its parts are delimited. */
  lemma PrintInvertsParse(s: string)
    requires Parse(s).Some?
    ensures Print(Parse(s).value) == s && Representable(Parse(s).value)
  {
    if RevisionPath("git:", s).Some? {
      RevisionPathPrints("git:", s);
    } else if RevisionPath("hg:", s).Some? {
      RevisionPathPrints("hg:", s);
    } else if S3Path(s).Some? {
      S3PathPrints(s);
    } else {
      CargoPathPrints(s);
    }
  }

  /** A path survives printing and parsing exactly when its parts are delimited. */
  lemma ParseInvertsPrintIff(m: MappedPath)
    ensures Parse(Print(m)) == Some(m) <==> Representable(m)
  {
    if Representable(m) {
      RepresentableParses(m);
    } else if Parse(Print(m)) == Some(m) {
      PrintInvertsParse(Print(m));
    }
  }

  /** The string writes the path in one of the four forms, and its parts are delimited. */
  ghost predicate Writes(s: string, m: MappedPath) {
    match m
    case Git(repo, path, rev) =>
      s == "git:" + repo + ":" + path + ":" + rev && Delimited(repo, ':') && Delimited(path, ':')
    case Hg(repo, path, rev) =>
      s == "hg:" + repo + ":" + path + ":" + rev && Delimited(repo, ':') && Delimited(path, ':')
    case S3(bucket, digest, path) =>
      && s == "s3:" + bucket + ":" + digest + "/" + path + ":"
      && Delimited(bucket, ':') && Delimited(digest, '/') && Delimited(path, ':')
    case Cargo(registry, crateName, version, path) =>
      && s == "cargo:" + registry + ":" + crateName + "-" + version + ":" + path
      && Delimited(registry, ':') && ':' !in crateName && ':' !in version && '-' !in version
  }

  lemma Joined(a: string, b: string, c: string)
    ensures a + (b + c) == a + b + c
  {
  }

  lemma ThreeJoined(tag: string, a: string, b: string, c: string, stop: string)
    ensures tag + (a + ":" + (b + stop + c)) == tag + a + ":" + b + stop + c
  {
    Joined(a, ":", b + stop + c);
    Joined(tag, a, ":" + (b + stop + c));
    Joined(":", b + stop, c);
    Joined(":", b, stop);
    Joined(tag + a, ":" + b + stop, c);
    Joined(tag + a, ":" + b, stop);
    Joined(tag + a, ":", b);
  }

  lemma PrintWrites(m: MappedPath)
    ensures match m
            case Git(repo, path, rev) => Print(m) == "git:" + repo + ":" + path + ":" + rev
            case Hg(repo, path, rev) => Print(m) == "hg:" + repo + ":" + path + ":" + rev
            case S3(bucket, digest, path) => Print(m) == "s3:" + bucket + ":" + digest + "/" + path + ":"
            case Cargo(registry, crateName, version, path) =>
              Print(m) == "cargo:" + registry + ":" + crateName + "-" + version + ":" + path
  {
    match m {
      case Git(repo, path, rev) => ThreeJoined("git:", repo, path, rev, ":");
      case Hg(repo, path, rev) => ThreeJoined("hg:", repo, path, rev, ":");
      case S3(bucket, digest, path) =>
        ThreeJoined("s3:", bucket, digest, path + ":" + "", "/");
        Joined("s3:" + bucket + ":" + digest + "/", path, ":");
        assert path + ":" + "" == path + ":";
      case Cargo(registry, crateName, version, path) =>
        ThreeJoined("cargo:", registry, crateName + "-" + version, path, ":");
        Joined("cargo:" + registry + ":", crateName + "-", version);
        Joined("cargo:" + registry + ":", crateName, "-");
    }
  }

  /** A string is read as a path exactly when it writes it. */
  lemma ParsesIffWrites(s: string, m: MappedPath)
    ensures Parse(s) == Some(m) <==> Writes(s, m)
  {
    PrintWrites(m);
    ParseInvertsPrintIff(m);
    if Parse(s).Some? {
      PrintInvertsParse(s);
    }
    hide Parse, Print, Delimited;
  }

  /** The accepted strings are exactly the printed forms of delimited paths. */
  lemma AcceptedIffPrinted(s: string)
    ensures Parse(s).Some? <==> exists m :: Representable(m) && Print(m) == s
  {
    if Parse(s).Some? {
      PrintInvertsParse(s);
    }
    forall m | Representable(m) && Print(m) == s
      ensures Parse(s).Some?
    {
      RepresentableParses(m);
    }
  }

  /** Different delimited paths print differently. */
  lemma PrintIsInjective(m: MappedPath, n: MappedPath)
    requires Representable(m) && Representable(n) && Print(m) == Print(n)
    ensures m == n
  {
    RepresentableParses(m);
    RepresentableParses(n);
  }

  /** A colon in a path, or a hyphen in a version, does not survive. */
  lemma DelimitersAreLost()
    ensures Parse(Print(Git("r", "a:b.rs", "1"))) != Some(Git("r", "a:b.rs", "1"))
    ensures Parse(Print(Cargo("r", "tokio", "1.0.0-rc.1", "src/lib.rs"))) != Some(Cargo("r", "tokio", "1.0.0-rc.1", "src/lib.rs"))
  {
    ParseInvertsPrintIff(Git("r", "a:b.rs", "1"));
    ParseInvertsPrintIff(Cargo("r", "tokio", "1.0.0-rc.1", "src/lib.rs"));
    assert "a:b.rs"[1] == ':' && "1.0.0-rc.1"[5] == '-';
  }
}
