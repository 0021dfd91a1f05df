/** Image names, the local aliases they are kept under, and the fingerprints these stand for (lxf/image.go). */
module Images {
  import opened Wrappers
  import opened Text
  import opened Lxd

  /** The remotes of the client configuration */
  datatype Remotes = Remotes(known: set<string>, default: string)

  datatype ImageID = ImageID(remote: string, alias: string) {
    /** The alias under which the image is kept locally */
    function Tag(): string {
      remote + "/" + alias
    }
  }

  // ---------- Positions ----------

  /** The last position of `c`, or the length */
  function LastIndex(s: string, c: char): (i: nat)
    ensures i <= |s|
    ensures forall j | i < j < |s| :: s[j] != c
    ensures if i < |s| then s[i] == c else Free(s, c)
  {
    LastIndexBefore(s, c, |s|)
  }

  function LastIndexBefore(s: string, c: char, n: nat): (i: nat)
    requires n <= |s|
    ensures i < n || i == |s|
    ensures i < |s| ==> s[i] == c && forall j | i < j < n :: s[j] != c
    ensures i == |s| ==> forall j | 0 <= j < n :: s[j] != c
  {
    if n == 0 then |s| else if s[n - 1] == c then n - 1 else LastIndexBefore(s, c, n - 1)
  }

  // ---------- Parsing ----------

  /** Docker tags are always dropped: everything from the last colon on. */
  function WithoutTag(name: string): string {
    name[..LastIndex(name, ':')]
  }

  /** From remote/path to LXD's remote:path; a name that contains a slash needs something before one. */
  function ConvertDockerImageName(input: string): Result<string> {
    var name := WithoutTag(input);
    if Free(name, '/') then Ok(name)
    else
      var i := IndexFrom(name, '/', 1);
      if i < |name| then Ok(name[..i] + ":" + name[i + 1..]) else Err(Parse)
  }

  /** config.ParseRemote: the part before the first colon must be a known remote. */
  function ParseRemote(remotes: Remotes, raw: string): Result<ImageID> {
    var i := IndexFrom(raw, ':', 0);
    if i == |raw| then Ok(ImageID(remotes.default, raw))
    else if raw[..i] in remotes.known then Ok(ImageID(raw[..i], raw[i + 1..]))
    else Err(Parse)
  }

  function ParseImage(remotes: Remotes, name: string): Result<ImageID> {
    match ConvertDockerImageName(name)
    case Err(e) => Err(e)
    case Ok(img) => ParseRemote(remotes, img)
  }

  lemma ParseImageError(remotes: Remotes, name: string)
    ensures ParseImage(remotes, name).Err? ==> ParseImage(remotes, name).error == Parse
  {
  }

  // ---------- Listed names parse to the same image ----------

  /** A remote whose name survives being written into a tag */
  predicate Taggable(remotes: Remotes, remote: string) {
    remote in remotes.known && remote != "" && Free(remote, ':') && Free(remote[1..], '/')
  }

  lemma NameWithoutTag(name: string, tag: string)
    requires Free(tag, ':')
    ensures WithoutTag(name + ":" + tag) == name
  {
    var s := name + ":" + tag;
    assert s[|name|] == ':' && s[..|name|] == name;
    assert forall j | |name| < j < |s| :: s[j] == tag[j - |name| - 1];
    assert LastIndex(s, ':') == |name|;
  }

  /** A name of a remote and an alias, with any tag, parses to exactly these if and only if the remote is taggable. */
  lemma NameParsesExactly(remotes: Remotes, remote: string, alias: string, tag: string)
    requires Free(tag, ':')
    ensures ParseImage(remotes, remote + "/" + alias + ":" + tag) == Ok(ImageID(remote, alias)) <==>
      Taggable(remotes, remote)
  {
    hide WithoutTag;
    var name, n := remote + "/" + alias, |remote|;
    NameWithoutTag(name, tag);
    assert name[n] == '/' && name[..n] == remote && name[n + 1..] == alias;
    var i := IndexFrom(name, '/', 1);
    if n > 0 {
      assert forall j | 1 <= j < n :: name[j] == remote[1..][j - 1];
      assert i == n <==> Free(remote[1..], '/');
      assert i <= n;
    }
    if i < |name| {
      var img := name[..i] + ":" + name[i + 1..];
      assert img[i] == ':';
      var k := IndexFrom(img, ':', 0);
      assert k <= i;
      assert forall j | 0 <= j < i :: img[j] == name[j];
      if i == n {
        assert img[..n] == remote && img[n + 1..] == alias;
        assert k == n <==> Free(remote, ':');
      }
    }
  }

  /** A name without a slash and a colon is an alias on the default remote, and so is the same name with any tag. */
  lemma PlainNameParses(remotes: Remotes, alias: string, tag: string)
    requires Free(alias, '/') && Free(alias, ':') && Free(tag, ':')
    ensures ParseImage(remotes, alias) == Ok(ImageID(remotes.default, alias))
    ensures ParseImage(remotes, alias + ":" + tag) == Ok(ImageID(remotes.default, alias))
  {
    NameWithoutTag(alias, tag);
    assert LastIndex(alias, ':') == |alias| && IndexFrom(alias, ':', 0) == |alias|;
    assert WithoutTag(alias) == alias;
  }

  /** The form in which image listings return a tag parses to the image it belongs to exactly if its
      remote is taggable. */
  lemma TagParsesExactly(remotes: Remotes, id: ImageID)
    ensures ParseImage(remotes, id.Tag() + ":latest") == Ok(id) <==> Taggable(remotes, id.remote)
  {
    NameParsesExactly(remotes, id.remote, id.alias, "latest");
    assert id.Tag() + ":" + "latest" == id.Tag() + ":latest";
  }

  /** The name, in LXD's form, names a remote. */
  predicate NamesRemote(img: string) {
    !Free(img, ':')
  }

  /** A remote that is written out in an accepted name is taggable unless it is empty. */
  lemma WrittenRemoteIsTaggable(remotes: Remotes, name: string)
    requires ParseImage(remotes, name).Ok? && NamesRemote(ConvertDockerImageName(name).value)
    ensures Taggable(remotes, ParseImage(remotes, name).value.remote) <==> ConvertDockerImageName(name).value[0] != ':'
  {
    var img := ConvertDockerImageName(name).value;
    var stripped := WithoutTag(name);
    var k := IndexFrom(img, ':', 0);
    var remote := img[..k];
    if k > 0 {
      if Free(stripped, '/') {
        assert Free(remote[1..], '/');
      } else {
        var i := IndexFrom(stripped, '/', 1);
        assert img[i] == ':';
        assert forall j | 1 <= j < k :: img[j] == stripped[j];
      }
    }
  }

  /** An accepted name and the tag under which its image is listed name the same image exactly if the name writes out a
      remote that is not empty, or writes none and the default remote is taggable. */
  lemma ListedNameIsSameImageExactly(remotes: Remotes, name: string)
    requires ParseImage(remotes, name).Ok?
    ensures var img := ConvertDockerImageName(name).value;
      ParseImage(remotes, ParseImage(remotes, name).value.Tag() + ":latest") == ParseImage(remotes, name) <==>
        if NamesRemote(img) then img[0] != ':' else Taggable(remotes, remotes.default)
  {
    TagParsesExactly(remotes, ParseImage(remotes, name).value);
    if NamesRemote(ConvertDockerImageName(name).value) {
      WrittenRemoteIsTaggable(remotes, name);
    }
  }

  /** With a default remote whose name contains a slash, such as a/b next to a, an accepted name and its listed tag name
      two different images. */
  lemma ListedNameIsOtherImage(alias: string)
    requires Free(alias, '/') && Free(alias, ':')
    ensures var remotes := Remotes({"a", "a/b"}, "a/b");
      && ParseImage(remotes, alias) == Ok(ImageID("a/b", alias))
      && ParseImage(remotes, ImageID("a/b", alias).Tag() + ":latest") == Ok(ImageID("a", "b/" + alias))
  {
    var remotes := Remotes({"a", "a/b"}, "a/b");
    assert LastIndex(alias, ':') == |alias| && IndexFrom(alias, ':', 0) == |alias|;
    assert WithoutTag(alias) == alias && ParseImage(remotes, alias) == Ok(ImageID("a/b", alias));
    var tag := ImageID("a/b", alias).Tag();
    NameWithoutTag(tag, "latest");
    assert tag + ":" + "latest" == tag + ":latest";
    hide WithoutTag;
    assert tag[0] == 'a' && tag[1] == '/';
    assert IndexFrom(tag, '/', 1) == 1;
    assert tag[..1] == "a" && tag[2..] == "b/" + alias;
    var img := tag[..1] + ":" + tag[2..];
    assert ConvertDockerImageName(tag + ":latest") == Ok(img);
    assert img[0] == 'a' && img[1] == ':' && img[..1] == "a" && img[2..] == "b/" + alias;
    assert IndexFrom(img, ':', 0) == 1;
    assert "a" in remotes.known;
  }

  // ---------- Resolving ----------

  /** ImageID.Hash: the target of the local alias, or else the alias itself if it is a fingerprint */
  function HashOf(aliases: map<string, string>, images: set<string>, id: ImageID): Option<string> {
    if id.Tag() in aliases then Some(aliases[id.Tag()])
    else if id.alias in images then Some(id.alias)
    else None
  }

  method Hash(server: Server, id: ImageID) returns (r: Result<Option<string>>)
    ensures r.Ok? ==> r.value == HashOf(server.aliases, server.images, id)
    ensures r.Ok? && r.value.Some? ==>
      if id.remote + "/" + id.alias in server.aliases then r.value.value == server.aliases[id.remote + "/" + id.alias]
      else r.value.value == id.alias && id.alias in server.images
    ensures r.Ok? && r.value.None? ==> id.remote + "/" + id.alias !in server.aliases && id.alias !in server.images
    ensures r.Err? ==> r.error == Unavailable && !server.reliable
  {
    var alias := server.GetImageAlias(id.Tag());
    if alias.Ok? { return Ok(Some(alias.value)); }
    if alias.error != NotFound { return Err(alias.error); }
    var err := server.GetImage(id.alias);
    if err.None? { return Ok(Some(id.alias)); }
    if err.value == NotFound { return Ok(None); }
    r := Err(err.value);
  }

  /** Creates the alias, or points it to another fingerprint.  This takes two requests; if the second one
      fails the alias is gone. */
  method EnsureImageAlias(server: Server, alias: string, fingerprint: string) returns (err: Option<Error>)
    modifies server`aliases, server`requests
    ensures err.None? ==> server.aliases == old(server.aliases)[alias := fingerprint]
    ensures err.Some? ==> server.aliases == old(server.aliases) || server.aliases == old(server.aliases) - {alias}
    ensures err.Some? ==> server.aliases - {alias} == old(server.aliases) - {alias}
    ensures err.None? && alias in old(server.aliases) && old(server.aliases)[alias] == fingerprint ==>
      server.requests == old(server.requests)
    ensures server.reliable ==> err.None?
  {
    var current := server.GetImageAliases();
    if current.Err? { return Some(current.error); }
    var alreadyCorrect := false;
    for i := 0 to |current.value|
      invariant !alreadyCorrect
      invariant server.aliases == old(server.aliases) || server.aliases == old(server.aliases) - {alias}
      invariant alias in server.aliases ==> forall j | 0 <= j < i :: current.value[j].name != alias
      invariant server.aliases == old(server.aliases) ==> server.requests == old(server.requests)
      invariant server.aliases != old(server.aliases) ==>
        old(server.aliases)[alias] != fingerprint && exists j :: 0 <= j < i && current.value[j].name == alias
    {
      var ca := current.value[i];
      assert ca in current.value;
      if ca.name == alias {
        if ca.target == fingerprint {
          alreadyCorrect := true;
          break;
        }
        err := server.DeleteImageAlias(ca.name);
        if err.Some? { return; }
      }
    }
    if alreadyCorrect {
      assert old(server.aliases)[alias := fingerprint] == old(server.aliases);
      return None;
    }
    assert forall n | n in old(server.aliases) :: Alias(n, old(server.aliases)[n]) in current.value;
    err := server.CreateImageAlias(alias, fingerprint);
  }

  /** PullImage, given what the remote server resolves the name to: the local alias of the image then stands
      for exactly the pulled fingerprint, and no other alias changes whether or not the call succeeds.  The image can
      also be told by its fingerprint, on any remote that has no alias of that name. */
  method PullImage(server: Server, remotes: Remotes, name: string, found: Result<string>) returns (r: Result<string>)
    modifies server`aliases, server`images, server`requests
    ensures r.Ok? ==> found.Ok? && r.value == found.value && ParseImage(remotes, name).Ok?
    ensures r.Ok? ==> server.images == old(server.images) + {r.value}
    ensures r.Ok? ==> server.aliases == old(server.aliases)[ParseImage(remotes, name).value.Tag() := r.value]
    ensures r.Ok? ==> HashOf(server.aliases, server.images, ParseImage(remotes, name).value) == Some(r.value)
    ensures r.Ok? ==> forall remote: string | remote + "/" + r.value !in server.aliases ::
      HashOf(server.aliases, server.images, ImageID(remote, r.value)) == Some(r.value)
    ensures r.Err? && ParseImage(remotes, name).Ok? ==>
      var tag := ParseImage(remotes, name).value.Tag();
      server.aliases - {tag} == old(server.aliases) - {tag}
    ensures r.Err? && ParseImage(remotes, name).Err? ==> server.aliases == old(server.aliases)
    ensures server.reliable && ParseImage(remotes, name).Ok? && found.Ok? ==> r.Ok?
  {
    var id := ParseImage(remotes, name);
    if id.Err? { return Err(id.error); }
    if found.Err? { return found; }
    var err := server.StoreImage(found.value);
    if err.Some? { return Err(err.value); }
    err := EnsureImageAlias(server, id.value.Tag(), found.value);
    r := if err.Some? then Err(err.value) else found;
  }

  /** Two taggable remotes never share a tag: different images have different aliases. */
  lemma TagsAreDistinct(remotes: Remotes, a: ImageID, b: ImageID)
    requires Taggable(remotes, a.remote) && Taggable(remotes, b.remote)
    ensures a.Tag() == b.Tag() <==> a == b
  {
    TagParsesExactly(remotes, a);
    TagParsesExactly(remotes, b);
  }
}
