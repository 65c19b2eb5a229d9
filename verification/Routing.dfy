/**
 The handlers of the HTTP server: registration under a normalised path, and the lookup that
 shortens the request path until a registered one is found.
 */
module Routing {
  import opened Wrappers

  datatype RegisterError = InvalidPath | DuplicatePath

  predicate Rooted(path: string) {
    path != [] && path[0] == '/'
  }

  /** One trailing slash is dropped, except from "/" itself. */
  function Normalise(path: string): string {
    if |path| > 1 && path[|path| - 1] == '/' then path[..|path| - 1] else path
  }

  function Register<H>(handlers: map<string, H>, path: string, handler: H): Result<map<string, H>, RegisterError> {
    if !Rooted(path) then Err(InvalidPath)
    else if Normalise(path) in handlers then Err(DuplicatePath)
    else Ok(handlers[Normalise(path) := handler])
  }

  /** Normalising drops one trailing slash if something is left, and nothing else. */
  lemma NormaliseIff(path: string, key: string)
    ensures Normalise(path) == key <==> (path == key + "/" && key != "") || (path == key && (path == "/" || path == "" || path[|path| - 1] != '/'))
  {
    if path == key + "/" && key != "" {
      assert path[..|path| - 1] == key;
    }
  }

  /** Which paths cannot be registered, and why: not rooted first, then taken. */
  lemma RegisterIff<H>(handlers: map<string, H>, path: string, handler: H)
    ensures var r, taken := Register(handlers, path, handler), Normalise(path) in handlers;
      && (r == Err(InvalidPath) <==> path == "" || path[0] != '/')
      && (r == Err(DuplicatePath) <==> path != "" && path[0] == '/' && taken)
      && (r.Ok? ==> r.value.Keys == handlers.Keys + {Normalise(path)} && r.value[Normalise(path)] == handler)
      && (r.Ok? ==> forall p :: p in handlers ==> r.value[p] == handlers[p])
  {
  }

  /** The position of the last slash. */
  function LastSlash(path: string): (i: nat)
    requires Rooted(path)
    ensures i < |path| && path[i] == '/'
    ensures forall j :: i < j < |path| ==> path[j] != '/'
  {
    if path[|path| - 1] == '/' then |path| - 1 else LastSlash(path[..|path| - 1])
  }

  /** The registered path that findHandler ends up with. */
  function Lookup(registered: set<string>, path: string): Option<string>
    requires Rooted(path)
    decreases |path|
  {
    if path in registered then Some(path)
    else if LastSlash(path) == 0 then if "/" in registered then Some("/") else None
    else Lookup(registered, path[..LastSlash(path)])
  }

  // ---------------------------------------------------------------- what the lookup means

  /** path is p or a sub-path of it: the documented meaning of registering p. */
  ghost predicate Covers(p: string, path: string) {
    p == "/" || p == path || p + "/" <= path
  }

  ghost predicate MostSpecific(registered: set<string>, path: string, p: string) {
    && p in registered && Covers(p, path)
    && forall q :: q in registered && Covers(q, path) ==> |q| <= |p|
  }

  /** A path that covers a rooted path is a prefix of it that is followed by a slash, or all of it. */
  lemma CoversAt(p: string, path: string)
    requires Rooted(path) && Rooted(p) && p != "/" && Covers(p, path) && p != path
    ensures 1 < |p| < |path| && p == path[..|p|] && path[|p|] == '/'
  {
    assert (p + "/")[|p|] == '/';
    assert p == (p + "/")[..|p|] == path[..|p|];
  }

  /** Shortening to the last slash loses no candidate but the path itself. */
  lemma ShortenCovers(path: string, q: string)
    requires Rooted(path) && Rooted(q) && q != path && q != "/"
    ensures LastSlash(path) == 0 ==> !Covers(q, path)
    ensures LastSlash(path) > 0 ==> (Covers(q, path) <==> Covers(q, path[..LastSlash(path)]))
  {
    var k := LastSlash(path);
    if Covers(q, path) {
      CoversAt(q, path);
      assert |q| <= k;
    }
    if k > 0 {
      var short := path[..k];
      if Covers(q, path) && q != short {
        assert path[|q|] == '/' && |q| < k;
        assert q + "/" == short[..|q| + 1];
      }
      if Covers(q, short) {
        if q == short {
          assert q + "/" == path[..k + 1];
        } else {
          assert q + "/" == short[..|q| + 1] == path[..|q| + 1];
        }
      }
    }
  }

  /** The lookup finds the most specific registered path that covers the request, if there is one. */
  lemma {:induction false} LookupMostSpecific(registered: set<string>, path: string)
    requires Rooted(path) && forall p :: p in registered ==> Rooted(p)
    ensures Lookup(registered, path).None? <==> forall p :: p in registered ==> !Covers(p, path)
    ensures forall p :: Lookup(registered, path) == Some(p) <==> MostSpecific(registered, path, p)
    decreases |path|
  {
    if path in registered {
      forall q | q in registered && Covers(q, path) ensures |q| <= |path| && (|q| == |path| ==> q == path) {
        if q != "/" && q != path {
          CoversAt(q, path);
        }
      }
    } else {
      forall q | q in registered && q != "/"
        ensures LastSlash(path) == 0 ==> !Covers(q, path)
        ensures LastSlash(path) > 0 ==> (Covers(q, path) <==> Covers(q, path[..LastSlash(path)]))
      {
        ShortenCovers(path, q);
      }
      if LastSlash(path) > 0 {
        LookupMostSpecific(registered, path[..LastSlash(path)]);
        LookupShorter(registered, path);
      }
    }
  }

  lemma LookupShorter(registered: set<string>, path: string)
    requires Rooted(path) && path !in registered && LastSlash(path) > 0
    requires forall q :: q in registered && q != "/" ==>
      (Covers(q, path) <==> Covers(q, path[..LastSlash(path)]))
    ensures forall q :: q in registered ==> (Covers(q, path) <==> Covers(q, path[..LastSlash(path)]))
    ensures forall p :: MostSpecific(registered, path, p) <==> MostSpecific(registered, path[..LastSlash(path)], p)
  {
    var short := path[..LastSlash(path)];
    forall q | q in registered ensures Covers(q, path) <==> Covers(q, short) {
      if q == "/" {
        assert Covers(q, path) && Covers(q, short);
      }
    }
  }

  // ---------------------------------------------------------------- registration order

  datatype Entry<H> = Entry(path: string, handler: H)

  function RegisterAll<H>(entries: seq<Entry<H>>): Result<map<string, H>, RegisterError> {
    if entries == [] then Ok(map[])
    else
      var last := entries[|entries| - 1];
      var handlers :- RegisterAll(entries[..|entries| - 1]);
      Register(handlers, last.path, last.handler)
  }

  ghost predicate Registrable<H>(entries: seq<Entry<H>>) {
    && (forall i :: 0 <= i < |entries| ==> Rooted(entries[i].path))
    && (forall i, j :: 0 <= i < j < |entries| ==> Normalise(entries[i].path) != Normalise(entries[j].path))
  }

  /** handlers has the handler of every entry under its normalised path, and nothing else. */
  ghost predicate Holds<H>(handlers: map<string, H>, entries: seq<Entry<H>>) {
    && (forall i :: 0 <= i < |entries| ==> IsAt(handlers, entries[i]))
    && (forall p :: p in handlers ==> exists i :: 0 <= i < |entries| && Normalise(entries[i].path) == p)
  }

  ghost predicate IsAt<H>(handlers: map<string, H>, e: Entry<H>) {
    Normalise(e.path) in handlers && handlers[Normalise(e.path)] == e.handler
  }

  lemma HoldsOneMore<H>(handlers: map<string, H>, entries: seq<Entry<H>>, e: Entry<H>)
    requires Holds(handlers, entries) && Normalise(e.path) !in handlers
    ensures Holds(handlers[Normalise(e.path) := e.handler], entries + [e])
  {
    var more, all := handlers[Normalise(e.path) := e.handler], entries + [e];
    forall i | 0 <= i < |all| ensures IsAt(more, all[i]) {
      if i < |entries| {
        assert IsAt(handlers, entries[i]);
      }
    }
    forall p | p in more ensures exists i :: 0 <= i < |all| && Normalise(all[i].path) == p {
      if p == Normalise(e.path) {
        assert all[|entries|] == e;
      } else {
        var i :| 0 <= i < |entries| && Normalise(entries[i].path) == p;
        assert all[i] == entries[i];
      }
    }
  }

  /** Registration succeeds exactly for rooted, pairwise different paths, and loses no handler. */
  lemma {:induction false} RegisterAllIff<H>(entries: seq<Entry<H>>)
    ensures RegisterAll(entries).Ok? <==> Registrable(entries)
    ensures RegisterAll(entries).Ok? ==> Holds(RegisterAll(entries).value, entries)
    decreases |entries|
  {
    if entries == [] {
    } else {
      var n := |entries| - 1;
      var init, last := entries[..n], entries[n];
      assert entries == init + [last];
      RegisterAllIff(init);
      if RegisterAll(init).Ok? {
        RegistrableOneMore(init, last, RegisterAll(init).value);
        if Rooted(last.path) && Normalise(last.path) !in RegisterAll(init).value {
          HoldsOneMore(RegisterAll(init).value, init, last);
        }
      } else if Registrable(entries) {
        RegistrablePrefix(init, last);
      }
    }
  }

  lemma RegistrablePrefix<H>(init: seq<Entry<H>>, last: Entry<H>)
    requires Registrable(init + [last])
    ensures Registrable(init)
  {
    var all := init + [last];
    forall i | 0 <= i < |init| ensures Rooted(init[i].path) {
      assert Rooted(all[i].path);
    }
    forall i, j | 0 <= i < j < |init| ensures Normalise(init[i].path) != Normalise(init[j].path) {
      assert Normalise(all[i].path) != Normalise(all[j].path);
    }
  }

  lemma RegistrableOneMore<H>(init: seq<Entry<H>>, last: Entry<H>, handlers: map<string, H>)
    requires Registrable(init) && Holds(handlers, init)
    ensures Registrable(init + [last]) <==> Rooted(last.path) && Normalise(last.path) !in handlers
  {
    var all := init + [last];
    assert all[|init|] == last;
    if Normalise(last.path) in handlers {
      var i :| 0 <= i < |init| && Normalise(init[i].path) == Normalise(last.path);
      assert Normalise(all[i].path) == Normalise(all[|init|].path);
    } else if Rooted(last.path) {
      forall i | 0 <= i < |all| ensures Rooted(all[i].path) {
        assert i < |init| ==> Rooted(init[i].path);
      }
      forall i, j | 0 <= i < j < |all| ensures Normalise(all[i].path) != Normalise(all[j].path) {
        assert IsAt(handlers, init[i]);
      }
    }
  }

  lemma NoTwice<T>(s: seq<T>, t: seq<T>, i: nat, j: nat)
    requires multiset(s) == multiset(t) && i < j < |s| && s[i] == s[j]
    ensures exists k, l :: 0 <= k < l < |t| && t[k] == s[i] == t[l]
  {
    var x := s[i];
    assert s == s[..j] + [s[j]] + s[j + 1..];
    assert x in s[..j];
    assert multiset(s)[x] >= 2;
    var k :| 0 <= k < |t| && t[k] == x;
    assert t == t[..k] + [t[k]] + t[k + 1..];
    assert multiset(t[..k])[x] + multiset(t[k + 1..])[x] >= 1;
    if x in t[..k] {
      var l :| 0 <= l < k && t[l] == x;
    } else {
      assert x in t[k + 1..];
      var l :| k < l < |t| && t[l] == x;
    }
  }

  /** The order of registration does not matter: neither whether it succeeds nor what it yields. */
  lemma RegistrationOrder<H>(entries: seq<Entry<H>>, other: seq<Entry<H>>)
    requires multiset(entries) == multiset(other)
    requires RegisterAll(entries).Ok?
    ensures RegisterAll(other) == RegisterAll(entries)
  {
    RegisterAllIff(entries);
    RegisterAllIff(other);
    forall i | 0 <= i < |other| ensures other[i] in entries {
      assert other[i] in multiset(entries);
    }
    forall i | 0 <= i < |entries| ensures entries[i] in other {
      assert entries[i] in multiset(other);
    }
    forall i, j | 0 <= i < j < |other|
      ensures Normalise(other[i].path) != Normalise(other[j].path)
    {
      var k :| 0 <= k < |entries| && entries[k] == other[i];
      var l :| 0 <= l < |entries| && entries[l] == other[j];
      if k == l {
        NoTwice(other, entries, i, j);
      }
    }
    assert Registrable(other);
    SameHandlers(entries, other);
  }

  lemma SameHandlers<H>(entries: seq<Entry<H>>, other: seq<Entry<H>>)
    requires RegisterAll(entries).Ok? && RegisterAll(other).Ok?
    requires forall e :: e in entries <==> e in other
    ensures RegisterAll(other).value == RegisterAll(entries).value
  {
    RegisterAllIff(entries);
    RegisterAllIff(other);
    HeldBySame(RegisterAll(entries).value, entries, RegisterAll(other).value, other);
  }

  lemma HeldBySame<H>(m: map<string, H>, entries: seq<Entry<H>>, n: map<string, H>, other: seq<Entry<H>>)
    requires Holds(m, entries) && Holds(n, other)
    requires forall e :: e in entries <==> e in other
    ensures m == n
  {
    HeldToo(m, entries, n, other);
    HeldToo(n, other, m, entries);
  }

  lemma HeldToo<H>(m: map<string, H>, entries: seq<Entry<H>>, n: map<string, H>, other: seq<Entry<H>>)
    requires Holds(m, entries) && Holds(n, other)
    requires forall e :: e in entries ==> e in other
    ensures forall p :: p in m ==> p in n && n[p] == m[p]
  {
    forall p | p in m ensures p in n && n[p] == m[p] {
      var i :| 0 <= i < |entries| && Normalise(entries[i].path) == p;
      var e := entries[i];
      assert e in entries;
      assert IsAt(m, e) && IsAt(n, e);
    }
  }

  // ---------------------------------------------------------------- the server

  /** http::server, as far as handlers are concerned. */
  class Server<H> {
    var handlers: map<string, H>

    ghost predicate Valid()
      reads this
    {
      forall p :: p in handlers ==> Rooted(p)
    }

    constructor ()
      ensures Valid() && handlers == map[]
    {
      handlers := map[];
    }

    method AddHandler(path: string, handler: H) returns (r: Result<(), RegisterError>)
      requires Valid()
      modifies this
      ensures Valid()
      ensures match Register(old(handlers), path, handler)
              case Ok(m) => r == Ok(()) && handlers == m
              case Err(e) => r == Err(e) && handlers == old(handlers)
    {
      if path == "" || path[0] != '/' {
        return Err(InvalidPath);
      }
      var key := path;
      if key[|key| - 1] == '/' && |key| > 1 {
        key := key[..|key| - 1];
      }
      if key in handlers {
        return Err(DuplicatePath);
      }
      handlers := handlers[key := handler];
      return Ok(());
    }

    /** findHandler: the handler of the most specific registered path that covers the request. */
    method FindHandler(path: string) returns (r: Option<H>)
      requires Valid()
      ensures r.Some? <==> Rooted(path) && exists p :: p in handlers && Covers(p, path)
      ensures r.Some? ==> exists p :: MostSpecific(handlers.Keys, path, p) && r.value == handlers[p]
      ensures forall p :: Rooted(path) && MostSpecific(handlers.Keys, path, p) ==> r == Some(handlers[p])
    {
      if path == "" || path[0] != '/' {
        return None;
      }
      LookupMostSpecific(handlers.Keys, path);
      var rest := path;
      while true
        invariant Rooted(rest) && Lookup(handlers.Keys, rest) == Lookup(handlers.Keys, path)
        decreases |rest|
      {
        if rest in handlers {
          return Some(handlers[rest]);
        }
        var slash := LastSlash(rest);
        if slash == 0 {
          break;
        }
        rest := rest[..slash];
      }
      if "/" in handlers {
        return Some(handlers["/"]);
      }
      return None;
    }
  }
}
