/**
 The loop in main() that creates the configured hooks, chains those with the same URI path and
 registers the head of every chain with the HTTP server.
 */
module Setup {
  import opened Wrappers
  import opened Routing
  import opened Hooks

  datatype Target = StatusPage | Chained(chain: nat)

  datatype Site = Site(handlers: map<string, Target>, chains: seq<seq<Config>>)

  /** Registration failed, or the assert of hook::chain did: the head has a successor already. */
  datatype SetupError = Unregistrable(error: RegisterError) | AlreadyChained

  const STATUS_PATH := "/status"

  const EMPTY_SITE := Site(map[STATUS_PATH := StatusPage], [])

  /** The last chain whose head has the path, or the number of chains. */
  function FindSame(chains: seq<seq<Config>>, path: string): (i: nat)
    ensures i <= |chains|
    ensures i < |chains| ==> chains[i] != [] && chains[i][0].uriPath == path
    ensures i == |chains| ==> forall j :: 0 <= j < |chains| ==> chains[j] == [] || chains[j][0].uriPath != path
  {
    if chains == [] then 0
    else
      var n := |chains| - 1;
      if chains[n] != [] && chains[n][0].uriPath == path then n
      else if FindSame(chains[..n], path) < n then FindSame(chains[..n], path)
      else |chains|
  }

  function AddHook(site: Site, c: Config): Result<Site, SetupError> {
    var i := FindSame(site.chains, c.uriPath);
    if i == |site.chains| then
      match Register(site.handlers, c.uriPath, Chained(i))
      case Err(e) => Err(Unregistrable(e))
      case Ok(handlers) => Ok(Site(handlers, site.chains + [[c]]))
    else if |site.chains[i]| > 1 then Err(AlreadyChained)
    else Ok(site.(chains := site.chains[i := site.chains[i] + [c]]))
  }

  function SetUp(configs: seq<Config>): Result<Site, SetupError> {
    if configs == [] then Ok(EMPTY_SITE)
    else
      var site :- SetUp(configs[..|configs| - 1]);
      AddHook(site, configs[|configs| - 1])
  }

  // ---------------------------------------------------------------- what a site is

  /** The configured hooks with a path, in configuration order. */
  function OfPath(configs: seq<Config>, path: string): seq<Config> {
    if configs == [] then []
    else
      OfPath(configs[..|configs| - 1], path) +
      if configs[|configs| - 1].uriPath == path then [configs[|configs| - 1]] else []
  }

  /** Every chain holds all hooks of its path, in order; different chains have different paths. */
  ghost predicate Grouped(configs: seq<Config>, chains: seq<seq<Config>>) {
    && (forall i :: 0 <= i < |chains| ==> chains[i] != [] && chains[i] == OfPath(configs, chains[i][0].uriPath))
    && (forall i, j :: 0 <= i < j < |chains| ==> chains[i][0].uriPath != chains[j][0].uriPath)
    && (forall k :: 0 <= k < |configs| ==> FindSame(chains, configs[k].uriPath) < |chains|)
  }

  /** The handlers are the status page and the heads of the chains, and nothing else. */
  ghost predicate Registered(site: Site) {
    && STATUS_PATH in site.handlers && site.handlers[STATUS_PATH] == StatusPage
    && (forall i :: 0 <= i < |site.chains| ==> site.chains[i] != [] && IsChain(site, i))
    && (forall p :: p in site.handlers && p != STATUS_PATH ==>
          exists i :: 0 <= i < |site.chains| && Normalise(site.chains[i][0].uriPath) == p)
  }

  ghost predicate IsChain(site: Site, i: nat)
    requires i < |site.chains| && site.chains[i] != []
  {
    var p := Normalise(site.chains[i][0].uriPath);
    && Rooted(site.chains[i][0].uriPath)
    && p in site.handlers && site.handlers[p] == Chained(i) && p != STATUS_PATH
  }

  lemma SameIsUnique(chains: seq<seq<Config>>, i: nat)
    requires i < |chains| && forall j :: 0 <= j < |chains| ==> chains[j] != []
    requires forall i, j :: 0 <= i < j < |chains| ==> chains[i][0].uriPath != chains[j][0].uriPath
    ensures FindSame(chains, chains[i][0].uriPath) == i
  {
  }

  lemma OfPathOneMore(configs: seq<Config>, c: Config, path: string)
    ensures OfPath(configs + [c], path) == OfPath(configs, path) + if c.uriPath == path then [c] else []
  {
    assert (configs + [c])[..|configs|] == configs;
  }

  lemma {:induction false} OfPathEmpty(configs: seq<Config>, path: string)
    ensures OfPath(configs, path) == [] <==> forall k :: 0 <= k < |configs| ==> configs[k].uriPath != path
  {
    if configs == [] {
    } else {
      OfPathEmpty(configs[..|configs| - 1], path);
    }
  }

  lemma {:induction false} OfPathMembers(configs: seq<Config>, path: string)
    ensures forall h :: h in OfPath(configs, path) ==> h in configs && h.uriPath == path
  {
    if configs == [] {
    } else {
      OfPathMembers(configs[..|configs| - 1], path);
    }
  }

  lemma AddHookGroups(configs: seq<Config>, site: Site, c: Config)
    requires Grouped(configs, site.chains) && AddHook(site, c).Ok?
    ensures Grouped(configs + [c], AddHook(site, c).value.chains)
  {
    var all := configs + [c];
    var chains: seq<seq<Config>> := AddHook(site, c).value.chains;
    OfPathEmpty(configs, c.uriPath);
    SamePaths(site, c);
    forall i | 0 <= i < |chains| ensures chains[i] == OfPath(all, chains[i][0].uriPath) {
      OfPathOneMore(configs, c, chains[i][0].uriPath);
      assert i < |site.chains| ==> site.chains[i] == OfPath(configs, site.chains[i][0].uriPath);
    }
    forall k | 0 <= k < |all| ensures FindSame(chains, all[k].uriPath) < |chains| {
      var i := FindSame(site.chains, all[k].uriPath);
      if k < |configs| {
        assert configs[k] == all[k];
      }
      assert chains[i][0].uriPath == all[k].uriPath;
    }
  }

  /** Adding a hook changes no path of a chain. */
  lemma SamePaths(site: Site, c: Config)
    requires AddHook(site, c).Ok? && forall i :: 0 <= i < |site.chains| ==> site.chains[i] != []
    ensures var chains := AddHook(site, c).value.chains;
      && |site.chains| <= |chains|
      && (forall i :: 0 <= i < |chains| ==> chains[i] != [])
      && (forall i :: 0 <= i < |site.chains| ==> chains[i][0] == site.chains[i][0])
      && (|chains| > |site.chains| ==> |chains| == |site.chains| + 1 && chains[|site.chains|] == [c])
  {
  }

  lemma AddHookChains(site: Site, c: Config)
    requires Registered(site) && AddHook(site, c).Ok?
    ensures var more := AddHook(site, c).value;
      && |site.chains| <= |more.chains|
      && (forall i :: 0 <= i < |site.chains| ==> more.chains[i] != [] && more.chains[i][0] == site.chains[i][0])
      && (forall i :: 0 <= i < |more.chains| ==> more.chains[i] != [] && IsChain(more, i))
  {
    var more := AddHook(site, c).value;
    SamePaths(site, c);
    forall i | 0 <= i < |more.chains| ensures more.chains[i] != [] && IsChain(more, i) {
      if i < |site.chains| {
        assert IsChain(site, i);
      }
    }
  }

  lemma AddHookRegisters(site: Site, c: Config)
    requires Registered(site) && AddHook(site, c).Ok?
    ensures Registered(AddHook(site, c).value)
  {
    var more := AddHook(site, c).value;
    AddHookChains(site, c);
    forall p | p in more.handlers && p != STATUS_PATH
      ensures exists i :: 0 <= i < |more.chains| && Normalise(more.chains[i][0].uriPath) == p
    {
      if p in site.handlers {
        var i :| 0 <= i < |site.chains| && Normalise(site.chains[i][0].uriPath) == p;
        assert Normalise(more.chains[i][0].uriPath) == p;
      } else {
        assert Normalise(more.chains[|site.chains|][0].uriPath) == p;
      }
    }
  }

  /**
   A set-up that succeeds puts every configured hook into exactly one chain, with the others of its
   path and in configuration order, and registers exactly the heads.
   */
  lemma {:induction false} SetUpGroups(configs: seq<Config>)
    requires SetUp(configs).Ok?
    ensures Grouped(configs, SetUp(configs).value.chains) && Registered(SetUp(configs).value)
  {
    if configs == [] {
    } else {
      var n := |configs| - 1;
      SetUpGroups(configs[..n]);
      assert configs[..n] + [configs[n]] == configs;
      AddHookGroups(configs[..n], SetUp(configs[..n]).value, configs[n]);
      AddHookRegisters(SetUp(configs[..n]).value, configs[n]);
    }
  }

  // ---------------------------------------------------------------- when it succeeds

  ghost predicate AtMostTwice(configs: seq<Config>) {
    forall path :: |OfPath(configs, path)| <= 2
  }

  ghost predicate DistinctPaths(configs: seq<Config>) {
    && (forall k :: 0 <= k < |configs| ==> Rooted(configs[k].uriPath) && Normalise(configs[k].uriPath) != "/status")
    && (forall k, l :: 0 <= k < |configs| && 0 <= l < |configs| && configs[k].uriPath != configs[l].uriPath ==>
          Normalise(configs[k].uriPath) != Normalise(configs[l].uriPath))
  }

  lemma AddHookIff(configs: seq<Config>, site: Site, c: Config)
    requires Grouped(configs, site.chains) && Registered(site)
    requires AtMostTwice(configs) && DistinctPaths(configs)
    ensures AddHook(site, c).Ok? <==> AtMostTwice(configs + [c]) && DistinctPaths(configs + [c])
  {
    var same := FindSame(site.chains, c.uriPath);
    OfPathEmpty(configs, c.uriPath);
    if same < |site.chains| {
      var k :| 0 <= k < |configs| && configs[k].uriPath == c.uriPath;
      OldPathDistinct(configs, c, k);
      TwiceWith(configs, c);
      assert site.chains[same] == OfPath(configs, c.uriPath);
    } else {
      assert OfPath(configs, c.uriPath) == [];
      TwiceWith(configs, c);
      NewPathDistinct(configs, site, c);
    }
  }

  lemma TwiceWith(configs: seq<Config>, c: Config)
    requires AtMostTwice(configs)
    ensures AtMostTwice(configs + [c]) <==> |OfPath(configs, c.uriPath)| < 2
  {
    OfPathOneMore(configs, c, c.uriPath);
    forall path ensures |OfPath(configs + [c], path)| <= 2 || path == c.uriPath {
      OfPathOneMore(configs, c, path);
    }
  }

  lemma OldPathDistinct(configs: seq<Config>, c: Config, k: nat)
    requires DistinctPaths(configs) && k < |configs| && configs[k].uriPath == c.uriPath
    ensures DistinctPaths(configs + [c])
  {
  }

  /** The path of every configured hook is registered, for its chain. */
  lemma KeyOfConfig(configs: seq<Config>, site: Site, k: nat)
    requires Grouped(configs, site.chains) && Registered(site) && k < |configs|
    ensures Normalise(configs[k].uriPath) in site.handlers && Normalise(configs[k].uriPath) != STATUS_PATH
    ensures site.handlers[Normalise(configs[k].uriPath)] == Chained(FindSame(site.chains, configs[k].uriPath))
  {
    assert IsChain(site, FindSame(site.chains, configs[k].uriPath));
  }

  /** Every registered path but that of the status page is the path of a configured hook. */
  lemma ConfigOfKey(configs: seq<Config>, site: Site, p: string) returns (k: nat)
    requires Grouped(configs, site.chains) && Registered(site) && p in site.handlers && p != STATUS_PATH
    ensures k < |configs| && Normalise(configs[k].uriPath) == p
  {
    var i :| 0 <= i < |site.chains| && Normalise(site.chains[i][0].uriPath) == p;
    var path := site.chains[i][0].uriPath;
    OfPathEmpty(configs, path);
    k :| 0 <= k < |configs| && configs[k].uriPath == path;
  }

  lemma NewPathDistinct(configs: seq<Config>, site: Site, c: Config)
    requires Grouped(configs, site.chains) && Registered(site) && DistinctPaths(configs)
    requires FindSame(site.chains, c.uriPath) == |site.chains|
    ensures DistinctPaths(configs + [c]) <==> Rooted(c.uriPath) && Normalise(c.uriPath) !in site.handlers
  {
    var all := configs + [c];
    assert all[|configs|] == c;
    var p := Normalise(c.uriPath);
    if p in site.handlers {
      if p != STATUS_PATH {
        var k := ConfigOfKey(configs, site, p);
        assert FindSame(site.chains, configs[k].uriPath) < |site.chains|;
        assert all[k] == configs[k] && all[k].uriPath != c.uriPath;
        assert Normalise(all[k].uriPath) == Normalise(all[|configs|].uriPath);
      }
    } else {
      forall k | 0 <= k < |configs| ensures Normalise(configs[k].uriPath) != p {
        KeyOfConfig(configs, site, k);
      }
      OneMoreDistinct(configs, c);
    }
  }

  lemma OneMoreDistinct(configs: seq<Config>, c: Config)
    requires DistinctPaths(configs)
    requires forall k :: 0 <= k < |configs| ==> Normalise(configs[k].uriPath) != Normalise(c.uriPath)
    ensures Rooted(c.uriPath) && Normalise(c.uriPath) != STATUS_PATH ==> DistinctPaths(configs + [c])
    ensures !Rooted(c.uriPath) ==> !DistinctPaths(configs + [c])
  {
    assert (configs + [c])[|configs|] == c;
  }

  lemma PrefixOk(configs: seq<Config>, c: Config)
    requires AtMostTwice(configs + [c]) && DistinctPaths(configs + [c])
    ensures AtMostTwice(configs) && DistinctPaths(configs)
  {
    var all := configs + [c];
    forall path ensures |OfPath(configs, path)| <= 2 {
      OfPathOneMore(configs, c, path);
      assert |OfPath(all, path)| <= 2;
    }
    assert forall k :: 0 <= k < |configs| ==> configs[k] == all[k];
  }

  /**
   The set-up succeeds exactly if no path is configured more than twice and the paths can be
   registered: rooted, and different from each other and from the status page without the trailing
   slash. The README allows any number of hooks for a path.
   */
  lemma {:induction false} SetUpIff(configs: seq<Config>)
    ensures SetUp(configs).Ok? <==> AtMostTwice(configs) && DistinctPaths(configs)
  {
    if configs == [] {
      assert AtMostTwice(configs);
    } else {
      var n := |configs| - 1;
      var init := configs[..n];
      assert init + [configs[n]] == configs;
      SetUpIff(init);
      if SetUp(init).Ok? {
        SetUpGroups(init);
        AddHookIff(init, SetUp(init).value, configs[n]);
      } else if AtMostTwice(configs) && DistinctPaths(configs) {
        PrefixOk(init, configs[n]);
      }
    }
  }

  /** A configured hook has the same registered path, or it is that of the status page. */
  ghost predicate Taken(configs: seq<Config>, path: string) {
    Normalise(path) == "/status" || exists k :: 0 <= k < |configs| && Normalise(configs[k].uriPath) == Normalise(path)
  }

  lemma TakenIff(configs: seq<Config>, site: Site, path: string)
    requires Grouped(configs, site.chains) && Registered(site)
    ensures Taken(configs, path) <==> Normalise(path) in site.handlers
  {
    if Normalise(path) in site.handlers && Normalise(path) != "/status" {
      var k := ConfigOfKey(configs, site, Normalise(path));
      assert Normalise(configs[k].uriPath) == Normalise(path);
    }
    if k :| 0 <= k < |configs| && Normalise(configs[k].uriPath) == Normalise(path) {
      KeyOfConfig(configs, site, k);
    }
  }

  /**
   Why the set-up stops at a hook after a part of the configuration that could be set up: the third one
   of a path cannot be chained; the first one cannot be registered if its path is not rooted, or taken.
   */
  lemma StopsAtIff(configs: seq<Config>, c: Config)
    requires SetUp(configs).Ok?
    ensures var r, before := SetUp(configs + [c]), |OfPath(configs, c.uriPath)|;
      && (r == Err(AlreadyChained) <==> before >= 2)
      && (r == Err(Unregistrable(InvalidPath)) <==> before == 0 && (c.uriPath == "" || c.uriPath[0] != '/'))
      && (r == Err(Unregistrable(DuplicatePath)) <==>
            before == 0 && c.uriPath != "" && c.uriPath[0] == '/' && Taken(configs, c.uriPath))
  {
    var site := SetUp(configs).value;
    SetUpGroups(configs);
    SetUpOneMore(configs, c);
    OfPathEmpty(configs, c.uriPath);
    TakenIff(configs, site, c.uriPath);
    var same := FindSame(site.chains, c.uriPath);
    if same < |site.chains| {
      assert site.chains[same] == OfPath(configs, c.uriPath);
    } else {
      NoneOfPath(configs, site, c.uriPath);
    }
  }

  lemma NoneOfPath(configs: seq<Config>, site: Site, path: string)
    requires Grouped(configs, site.chains) && FindSame(site.chains, path) == |site.chains|
    ensures OfPath(configs, path) == []
  {
    OfPathEmpty(configs, path);
    forall k | 0 <= k < |configs| ensures configs[k].uriPath != path {
      assert FindSame(site.chains, configs[k].uriPath) < |site.chains|;
    }
  }

  /** Setting up one more hook. */
  lemma SetUpOneMore(configs: seq<Config>, c: Config)
    requires SetUp(configs).Ok?
    ensures SetUp(configs + [c]) == AddHook(SetUp(configs).value, c)
  {
    assert (configs + [c])[..|configs|] == configs;
  }

  /** Setting up the first hook of a path. */
  lemma FirstOfPath(site: Site, c: Config, key: string)
    requires FindSame(site.chains, c.uriPath) == |site.chains|
    requires Rooted(c.uriPath) && Normalise(c.uriPath) == key && key !in site.handlers
    ensures AddHook(site, c) == Ok(Site(site.handlers[key := Chained(|site.chains|)], site.chains + [[c]]))
  {
  }

  lemma OneHook(c: Config)
    requires Rooted(c.uriPath) && Normalise(c.uriPath) != STATUS_PATH
    ensures SetUp([c]) == Ok(Site(EMPTY_SITE.handlers[Normalise(c.uriPath) := Chained(0)], [[c]]))
  {
    assert [] + [c] == [c] && [] + [[c]] == [[c]];
    SetUpOneMore([], c);
    FirstOfPath(EMPTY_SITE, c, Normalise(c.uriPath));
  }

  lemma SecondHook(site: Site, a: Config, b: Config)
    requires |site.chains| == 1 && site.chains[0] == [a] && a.uriPath == b.uriPath
    ensures AddHook(site, b).Ok?
    ensures var chains := AddHook(site, b).value.chains; |chains| == 1 && |chains[0]| == 2 && chains[0][0] == a
  {
    SameIsUnique(site.chains, 0);
  }

  lemma ThirdHook(site: Site, a: Config, c: Config)
    requires |site.chains| == 1 && |site.chains[0]| == 2 && site.chains[0][0] == a && a.uriPath == c.uriPath
    ensures AddHook(site, c) == Err(AlreadyChained)
  {
    SameIsUnique(site.chains, 0);
  }

  /** Three hooks for one path end in the failed assert of hook::chain. */
  lemma ThreeHooksFail(a: Config, b: Config, c: Config)
    requires a.uriPath == b.uriPath == c.uriPath == "/hook"
    ensures SetUp([a, b, c]) == Err(AlreadyChained)
  {
    OneHook(a);
    SetUpOneMore([a], b);
    SecondHook(SetUp([a]).value, a, b);
    assert [a] + [b] == [a, b];
    SetUpOneMore([a, b], c);
    ThirdHook(SetUp([a, b]).value, a, c);
    assert [a, b] + [c] == [a, b, c];
  }

  // ---------------------------------------------------------------- reaching a chain

  /** Where the server sends a request. */
  function Route(site: Site, path: string): Option<Target> {
    if !Rooted(path) then None
    else
      match Lookup(site.handlers.Keys, path)
      case None => None
      case Some(p) => if p in site.handlers then Some(site.handlers[p]) else None
  }

  /** The status page is always there. */
  lemma StatusReached(configs: seq<Config>)
    requires SetUp(configs).Ok?
    ensures Route(SetUp(configs).value, "/status") == Some(StatusPage)
  {
    SetUpGroups(configs);
    assert "/status" in SetUp(configs).value.handlers;
  }

  /**
   A request to the very path of a chain reaches the chain unless the path ends in a slash and a
   hook is configured for the same path with one more slash: that one hides it.
   */
  lemma ReachedIff(configs: seq<Config>, i: nat)
    requires SetUp(configs).Ok? && i < |SetUp(configs).value.chains|
    ensures var site := SetUp(configs).value;
      site.chains[i] != [] &&
      var path := site.chains[i][0].uriPath;
      Route(site, path) == Some(Chained(i)) <==>
      !(|path| > 1 && path[|path| - 1] == '/' && exists k :: 0 <= k < |configs| && configs[k].uriPath == path + "/")
  {
    var site := SetUp(configs).value;
    SetUpGroups(configs);
    assert IsChain(site, i);
    var path := site.chains[i][0].uriPath;
    if |path| > 1 && path[|path| - 1] == '/' {
      Hidden(configs, site, i);
      if path !in site.handlers {
        assert LastSlash(path) == |path| - 1;
        assert Lookup(site.handlers.Keys, path) == Lookup(site.handlers.Keys, Normalise(path));
      }
    }
  }

  /** Two hooks that the set-up accepts, of which the first can never be triggered: its path leads to the second. */
  lemma SlashHidden(a: Config, b: Config)
    requires a.uriPath == "/x/" && b.uriPath == "/x//"
    ensures var r := SetUp([a, b]);
      r.Ok? && r.value.chains == [[a], [b]] && Route(r.value, "/x/") == Some(Chained(1))
  {
    SlashNormalise();
    TwoHooks(a, b);
    assert "/x/" in SetUp([a, b]).value.handlers;
  }

  lemma SlashNormalise()
    ensures Rooted("/x/") && Rooted("/x//") && Normalise("/x/") == "/x" && Normalise("/x//") == "/x/"
    ensures "/x" != STATUS_PATH && "/x/" != STATUS_PATH && "/x" != "/x/" && "/x/" != "/x//"
  {
    assert |"/x"| == 2 && |"/x/"| == 3 && |"/x//"| == 4 && |STATUS_PATH| == 7;
  }

  lemma TwoHooks(a: Config, b: Config)
    requires Rooted(a.uriPath) && Rooted(b.uriPath) && a.uriPath != b.uriPath
    requires Normalise(a.uriPath) != STATUS_PATH && Normalise(b.uriPath) != STATUS_PATH
    requires Normalise(a.uriPath) != Normalise(b.uriPath)
    ensures SetUp([a, b]) == Ok(Site(
      EMPTY_SITE.handlers[Normalise(a.uriPath) := Chained(0)][Normalise(b.uriPath) := Chained(1)], [[a], [b]]))
  {
    OneHook(a);
    SetUpOneMore([a], b);
    NoneSame(a, b.uriPath);
    assert [a] + [b] == [a, b] && [[a]] + [[b]] == [[a], [b]];
    FirstOfPath(SetUp([a]).value, b, Normalise(b.uriPath));
  }

  lemma NoneSame(a: Config, path: string)
    requires a.uriPath != path
    ensures FindSame([[a]], path) == 1
  {
    assert [[a]][0][0] == a;
  }

  /** What hides a chain whose path ends in a slash: another hook that is registered under that path. */
  lemma Hidden(configs: seq<Config>, site: Site, i: nat)
    requires Grouped(configs, site.chains) && Registered(site) && i < |site.chains|
    requires site.chains[i] != []
    requires var path := site.chains[i][0].uriPath; |path| > 1 && path[|path| - 1] == '/'
    ensures var path := site.chains[i][0].uriPath;
      && (path in site.handlers <==> exists k :: 0 <= k < |configs| && configs[k].uriPath == path + "/")
      && (path in site.handlers ==> site.handlers[path] != Chained(i))
  {
    var path := site.chains[i][0].uriPath;
    assert path != STATUS_PATH;
    if path in site.handlers {
      var k := ConfigOfKey(configs, site, path);
      TrimsTo(configs[k].uriPath, path);
      KeyOfConfig(configs, site, k);
      assert site.chains[FindSame(site.chains, configs[k].uriPath)][0].uriPath == path + "/";
    }
    if k :| 0 <= k < |configs| && configs[k].uriPath == path + "/" {
      KeyOfConfig(configs, site, k);
      assert Normalise(path + "/") == path;
    }
  }

  /** Only a path with one more slash normalises to one that ends in a slash. */
  lemma TrimsTo(longer: string, path: string)
    requires Normalise(longer) == path && |path| > 1 && path[|path| - 1] == '/'
    ensures longer == path + "/"
  {
    assert longer == path ==> Normalise(longer) != path;
  }
}
