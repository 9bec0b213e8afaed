/** Refusing two flags that open one file (internal/identfile/identfile.go). A
    cleaned absolute path is the sequence of its names; the file system is a
    fixed map of symbolic links. */
module IdentFile {
  import opened Wrappers

  type Path = seq<string>

  // What readlink says: names before cleaning, or an error.
  datatype Target = Absolute(names: seq<string>) | Relative(names: seq<string>) | Unreadable

  type Links = map<Path, Target>

  const MAX_SYMLINK_HOPS: nat := 256

  datatype ResolveError = HopLimit | Loop(at: Path) | ReadlinkFailed

  function Dir(p: Path): Path {
    if p == [] then [] else p[..|p| - 1]
  }

  // filepath.Clean of base joined with names.
  function Clean(base: Path, names: seq<string>): Path
    decreases |names|
  {
    if names == [] then base
    else
      var n := names[0];
      Clean(if n == "" || n == "." then base else if n == ".." then Dir(base) else base + [n], names[1..])
  }

  function TargetPath(at: Path, t: Target): Path
    requires !t.Unreadable?
  {
    if t.Absolute? then Clean([], t.names) else Clean(Dir(at), t.names)
  }

  /******* resolvePath *******/

  // `followed` lists the links read, in order.
  datatype Resolution = Resolution(result: Result<Path, ResolveError>, seen: set<Path>, followed: seq<Path>)

  function Resolve(links: Links, path: Path, hops: nat, seen: set<Path>): Resolution
    requires hops <= MAX_SYMLINK_HOPS + 1
    decreases MAX_SYMLINK_HOPS + 1 - hops, |path| + 1
  {
    if hops > MAX_SYMLINK_HOPS then Resolution(Err(HopLimit), seen, [])
    else if path == [] then Follow(links, [], hops, seen)
    else
      var parent := Resolve(links, path[..|path| - 1], hops, seen);
      if parent.result.Err? then parent
      else
        var rest := Follow(links, parent.result.value + [path[|path| - 1]], hops, parent.seen);
        rest.(followed := parent.followed + rest.followed)
  }

  // The part after the parent is resolved.
  function Follow(links: Links, at: Path, hops: nat, seen: set<Path>): Resolution
    requires hops <= MAX_SYMLINK_HOPS
    decreases MAX_SYMLINK_HOPS + 1 - hops, 0
  {
    if at in seen then Resolution(Err(Loop(at)), seen, [])
    else if at !in links then Resolution(Ok(at), seen, [])
    else if links[at].Unreadable? then Resolution(Err(ReadlinkFailed), seen + {at}, [at])
    else
      var rest := Resolve(links, TargetPath(at, links[at]), hops + 1, seen + {at});
      rest.(followed := [at] + rest.followed)
  }

  // One call of canonicalPath; `seen` is shared by every recursive call.
  class Resolver {
    const links: Links
    var seen: set<Path>

    constructor (links: Links)
      ensures this.links == links && seen == {}
    {
      this.links, seen := links, {};
    }

    method ResolvePath(path: Path, hops: nat) returns (r: Result<Path, ResolveError>)
      requires hops <= MAX_SYMLINK_HOPS + 1
      modifies this
      ensures r == Resolve(links, path, hops, old(seen)).result
      ensures seen == Resolve(links, path, hops, old(seen)).seen
      decreases MAX_SYMLINK_HOPS + 1 - hops, |path|
    {
      if hops > MAX_SYMLINK_HOPS {
        return Err(HopLimit);
      }
      var at := path;
      if path != [] {
        var resolved := ResolvePath(path[..|path| - 1], hops);
        if resolved.Err? {
          return resolved;
        }
        at := resolved.value + [path[|path| - 1]];
      }
      if at in seen {
        return Err(Loop(at));
      }
      if at !in links {
        return Ok(at);
      }
      seen := seen + {at};
      if links[at].Unreadable? {
        return Err(ReadlinkFailed);
      }
      r := ResolvePath(TargetPath(at, links[at]), hops + 1);
    }
  }

  function CanonicalPath(links: Links, path: Path): Result<Path, ResolveError> {
    Resolve(links, path, 0, {}).result
  }

  /******* What success means *******/

  // No prefix of the path is a link.
  ghost predicate Settled(links: Links, p: Path) {
    forall k | 0 <= k <= |p| :: p[..k] !in links
  }

  lemma SettledSnoc(links: Links, p: Path, name: string)
    requires Settled(links, p) && p + [name] !in links
    ensures Settled(links, p + [name])
  {
    var q := p + [name];
    forall k | 0 <= k <= |q| ensures q[..k] !in links {
      assert k <= |p| ==> q[..k] == p[..k];
      assert q[..|q|] == q;
    }
  }

  lemma SettledParent(links: Links, p: Path)
    requires Settled(links, p) && p != []
    ensures Settled(links, p[..|p| - 1]) && p !in links
  {
    assert p[..|p|] == p;
    var q := p[..|p| - 1];
    forall k | 0 <= k <= |q| ensures q[..k] !in links {
      assert q[..k] == p[..k];
    }
  }

  lemma {:induction false} ResolvedIsSettled(links: Links, path: Path, hops: nat, seen: set<Path>)
    requires hops <= MAX_SYMLINK_HOPS + 1 && Resolve(links, path, hops, seen).result.Ok?
    ensures Settled(links, Resolve(links, path, hops, seen).result.value)
    decreases MAX_SYMLINK_HOPS + 1 - hops, |path| + 1
  {
    hide Settled, TargetPath;
    var parent := Resolve(links, if path == [] then [] else path[..|path| - 1], hops, seen);
    var at, before := path, seen;
    if path != [] {
      ResolvedIsSettled(links, path[..|path| - 1], hops, seen);
      at, before := parent.result.value + [path[|path| - 1]], parent.seen;
    }
    if at in links {
      ResolvedIsSettled(links, TargetPath(at, links[at]), hops + 1, before + {at});
    } else if path == [] {
      RootSettled(links);
    } else {
      SettledSnoc(links, parent.result.value, path[|path| - 1]);
    }
  }

  lemma RootSettled(links: Links)
    requires [] !in links
    ensures Settled(links, [])
  {
  }

  lemma {:induction false} SettledStays(links: Links, p: Path, hops: nat, seen: set<Path>)
    requires hops <= MAX_SYMLINK_HOPS && Settled(links, p) && seen <= links.Keys
    ensures Resolve(links, p, hops, seen) == Resolution(Ok(p), seen, [])
    decreases |p|
  {
    if p == [] {
      assert p[..0] == p;
    } else {
      SettledParent(links, p);
      SettledStays(links, p[..|p| - 1], hops, seen);
      assert p[..|p| - 1] + [p[|p| - 1]] == p;
    }
  }

  // A canonical path has no link on any prefix and is its own canonical path.
  lemma CanonicalIdempotent(links: Links, path: Path)
    requires CanonicalPath(links, path).Ok?
    ensures Settled(links, CanonicalPath(links, path).value)
    ensures CanonicalPath(links, CanonicalPath(links, path).value) == CanonicalPath(links, path)
  {
    hide Settled, Resolve;
    ResolvedIsSettled(links, path, 0, {});
    SettledStays(links, CanonicalPath(links, path).value, 0, {});
  }

  /******* Each link once *******/

  ghost predicate NoRepeats(ps: seq<Path>) {
    forall i, j | 0 <= i < j < |ps| :: ps[i] != ps[j]
  }

  ghost function Elements(ps: seq<Path>): set<Path> {
    set p | p in ps
  }

  // The links read: new ones, each once, and they are what `seen` gains.
  ghost predicate Fresh(links: Links, seen: set<Path>, r: Resolution) {
    && NoRepeats(r.followed)
    && (forall p | p in r.followed :: p !in seen && p in links)
    && r.seen == seen + Elements(r.followed)
  }

  lemma FreshConcat(links: Links, seen: set<Path>, a: Resolution, b: Resolution)
    requires Fresh(links, seen, a) && Fresh(links, a.seen, b)
    ensures Fresh(links, seen, b.(followed := a.followed + b.followed))
  {
    var ps := a.followed + b.followed;
    forall i, j | 0 <= i < j < |ps| ensures ps[i] != ps[j] {
      if i < |a.followed| && j >= |a.followed| {
        assert ps[i] in a.followed && ps[j] in b.followed;
      }
    }
  }

  // Even where it ends in an error, so a call reads at most |links| links.
  lemma {:induction false} EachLinkOnce(links: Links, path: Path, hops: nat, seen: set<Path>)
    requires hops <= MAX_SYMLINK_HOPS + 1
    ensures Fresh(links, seen, Resolve(links, path, hops, seen))
    decreases MAX_SYMLINK_HOPS + 1 - hops, |path| + 1
  {
    hide Fresh, TargetPath;
    NothingFollowed(links, seen, Resolve(links, path, hops, seen));
    if hops <= MAX_SYMLINK_HOPS {
      if path == [] {
        FollowOnce(links, [], hops, seen);
      } else {
        EachLinkOnce(links, path[..|path| - 1], hops, seen);
        var parent := Resolve(links, path[..|path| - 1], hops, seen);
        if parent.result.Ok? {
          var at := parent.result.value + [path[|path| - 1]];
          FollowOnce(links, at, hops, parent.seen);
          FreshConcat(links, seen, parent, Follow(links, at, hops, parent.seen));
        }
      }
    }
  }

  lemma {:induction false} FollowOnce(links: Links, at: Path, hops: nat, seen: set<Path>)
    requires hops <= MAX_SYMLINK_HOPS
    ensures Fresh(links, seen, Follow(links, at, hops, seen))
    decreases MAX_SYMLINK_HOPS + 1 - hops, 0
  {
    hide Fresh, TargetPath, Resolve;
    NothingFollowed(links, seen, Follow(links, at, hops, seen));
    if at !in seen && at in links {
      var step := Resolution(Err(ReadlinkFailed), seen + {at}, [at]);
      OneFollowed(links, seen, step, at);
      if !links[at].Unreadable? {
        EachLinkOnce(links, TargetPath(at, links[at]), hops + 1, seen + {at});
        FreshConcat(links, seen, step, Resolve(links, TargetPath(at, links[at]), hops + 1, seen + {at}));
      }
    }
  }

  lemma NothingFollowed(links: Links, seen: set<Path>, r: Resolution)
    ensures r.followed == [] && r.seen == seen ==> Fresh(links, seen, r)
  {
  }

  lemma OneFollowed(links: Links, seen: set<Path>, r: Resolution, at: Path)
    requires r.followed == [at] && r.seen == seen + {at} && at !in seen && at in links
    ensures Fresh(links, seen, r)
  {
  }

  /******* Against the resolver that keeps no `seen` *******/

  datatype Walk = Walk(result: Result<Path, ResolveError>, followed: seq<Path>)

  // The same resolution, bounded by the hop limit alone.
  function Plain(links: Links, path: Path, hops: nat): Walk
    requires hops <= MAX_SYMLINK_HOPS + 1
    decreases MAX_SYMLINK_HOPS + 1 - hops, |path| + 1
  {
    if hops > MAX_SYMLINK_HOPS then Walk(Err(HopLimit), [])
    else if path == [] then PlainFollow(links, [], hops)
    else
      var parent := Plain(links, path[..|path| - 1], hops);
      if parent.result.Err? then parent
      else
        var rest := PlainFollow(links, parent.result.value + [path[|path| - 1]], hops);
        rest.(followed := parent.followed + rest.followed)
  }

  function PlainFollow(links: Links, at: Path, hops: nat): Walk
    requires hops <= MAX_SYMLINK_HOPS
    decreases MAX_SYMLINK_HOPS + 1 - hops, 0
  {
    if at !in links then Walk(Ok(at), [])
    else if links[at].Unreadable? then Walk(Err(ReadlinkFailed), [at])
    else
      var rest := Plain(links, TargetPath(at, links[at]), hops + 1);
      rest.(followed := [at] + rest.followed)
  }

  // Reading these links after those in `seen` repeats none.
  ghost predicate Repeatless(seen: set<Path>, followed: seq<Path>) {
    NoRepeats(followed) && forall p | p in followed :: p !in seen
  }

  // r is what w gives when `seen` refuses repeats and nothing else.
  ghost predicate Refuses(seen: set<Path>, r: Resolution, w: Walk) {
    && (r.result.Ok? <==> w.result.Ok? && Repeatless(seen, w.followed))
    && (r.result.Ok? ==> r.result == w.result && r.followed == w.followed && r.seen == seen + Elements(w.followed))
  }

  lemma RepeatlessConcat(seen: set<Path>, a: seq<Path>, b: seq<Path>)
    ensures Repeatless(seen, a + b) <==> Repeatless(seen, a) && Repeatless(seen + Elements(a), b)
    ensures seen + Elements(a) + Elements(b) == seen + Elements(a + b)
  {
    var ps := a + b;
    if Repeatless(seen, ps) {
      assert forall i | 0 <= i < |a| :: ps[i] == a[i];
      assert forall i | 0 <= i < |b| :: ps[|a| + i] == b[i];
      assert forall p | p in a :: p in ps;
      assert forall p | p in b :: p in ps;
      forall i, j | 0 <= i < |a| && 0 <= j < |b| ensures a[i] != b[j] {
        assert ps[i] == a[i] && ps[|a| + j] == b[j];
      }
      assert forall p | p in b :: p !in a;
    }
    if Repeatless(seen, a) && Repeatless(seen + Elements(a), b) {
      forall i, j | 0 <= i < j < |ps| ensures ps[i] != ps[j] {
        if i < |a| && j >= |a| {
          assert ps[i] in a && ps[j] in b;
        }
      }
    }
  }

  lemma RefusesConcat(seen: set<Path>, a: Resolution, b: Resolution, v: Walk, w: Walk)
    requires Refuses(seen, a, v) && v.result.Ok?
    requires a.result.Ok? ==> Refuses(a.seen, b, w)
    ensures Refuses(seen, if a.result.Err? then a else b.(followed := a.followed + b.followed),
                    w.(followed := v.followed + w.followed))
  {
    hide Repeatless, NoRepeats;
    RepeatlessConcat(seen, v.followed, w.followed);
  }

  lemma {:induction false} RefusesOnlyRepeats(links: Links, path: Path, hops: nat, seen: set<Path>)
    requires hops <= MAX_SYMLINK_HOPS + 1 && seen <= links.Keys
    ensures Refuses(seen, Resolve(links, path, hops, seen), Plain(links, path, hops))
    decreases MAX_SYMLINK_HOPS + 1 - hops, |path| + 1
  {
    hide Refuses, TargetPath, Follow, PlainFollow;
    BothFail(seen, Resolve(links, path, hops, seen), Plain(links, path, hops));
    if hops <= MAX_SYMLINK_HOPS {
      if path == [] {
        FollowRefuses(links, [], hops, seen);
      } else {
        var name := path[|path| - 1];
        var parent, walk := Resolve(links, path[..|path| - 1], hops, seen), Plain(links, path[..|path| - 1], hops);
        RefusesOnlyRepeats(links, path[..|path| - 1], hops, seen);
        RefusesMeans(seen, parent, walk);
        if parent.result.Ok? {
          EachLinkOnce(links, path[..|path| - 1], hops, seen);
          FreshSeen(links, seen, parent);
          FollowRefuses(links, parent.result.value + [name], hops, parent.seen);
          RefusesConcat(seen, parent, Follow(links, parent.result.value + [name], hops, parent.seen),
                        walk, PlainFollow(links, walk.result.value + [name], hops));
        } else if walk.result.Ok? {
          RefusesConcat(seen, parent, parent, walk, PlainFollow(links, walk.result.value + [name], hops));
        }
      }
    }
  }

  lemma {:induction false} FollowRefuses(links: Links, at: Path, hops: nat, seen: set<Path>)
    requires hops <= MAX_SYMLINK_HOPS && seen <= links.Keys
    ensures Refuses(seen, Follow(links, at, hops, seen), PlainFollow(links, at, hops))
    decreases MAX_SYMLINK_HOPS + 1 - hops, 0
  {
    hide TargetPath, Resolve, Plain;
    if at in links && !links[at].Unreadable? {
      var to := TargetPath(at, links[at]);
      var one := Walk(Ok(at), [at]);
      if at in seen {
        assert at in PlainFollow(links, at, hops).followed;
      } else {
        assert Elements([at]) == {at};
        RefusesOnlyRepeats(links, to, hops + 1, seen + {at});
        RefusesConcat(seen, Resolution(Ok(at), seen + {at}, [at]), Resolve(links, to, hops + 1, seen + {at}),
                      one, Plain(links, to, hops + 1));
      }
    }
  }

  lemma BothFail(seen: set<Path>, r: Resolution, w: Walk)
    ensures r.result.Err? && w.result.Err? ==> Refuses(seen, r, w)
  {
  }

  lemma RefusesMeans(seen: set<Path>, r: Resolution, w: Walk)
    requires Refuses(seen, r, w)
    ensures r.result.Ok? ==> w.result == r.result
  {
  }

  lemma FreshSeen(links: Links, seen: set<Path>, r: Resolution)
    requires Fresh(links, seen, r) && seen <= links.Keys
    ensures r.seen <= links.Keys
  {
  }

  // canonicalPath succeeds exactly when the resolver without `seen` does and
  // reads no link twice; then they agree.
  lemma CanonicalIff(links: Links, path: Path)
    ensures CanonicalPath(links, path).Ok?
       <==> Plain(links, path, 0).result.Ok? && NoRepeats(Plain(links, path, 0).followed)
    ensures CanonicalPath(links, path).Ok? ==> CanonicalPath(links, path) == Plain(links, path, 0).result
  {
    hide Resolve, Plain, NoRepeats;
    RefusesOnlyRepeats(links, path, 0, {});
  }

  // A path that is no cycle and is refused: /l is a link to /d and /d/x one to
  // /l/y, so resolving /l/x reads /l twice.
  function TwoLinks(): Links {
    map[["l"] := Absolute(["d"]), ["d", "x"] := Absolute(["l", "y"])]
  }

  lemma RefusedWithoutCycle()
    ensures Plain(TwoLinks(), ["l", "x"], 0).result == Ok(["d", "y"])
    ensures CanonicalPath(TwoLinks(), ["l", "x"]).Err?
  {
    hide Plain, PlainFollow, TwoLinks, CanonicalPath, Clean;
    var links := TwoLinks();
    TwoLinksMeans();
    PlainOne(links, "l", 0);
    PlainOne(links, "l", 1);
    PlainSnoc(links, ["l"], "y", 1);
    PlainSnoc(links, ["l"], "x", 0);
    PlainRest(links, ["d", "y"], 1);
    PlainLink(links, ["d", "x"], ["l", "y"], 0);
    assert ["l"] + ["y"] == ["l", "y"] && ["l"] + ["x"] == ["l", "x"];
    assert ["d"] + ["y"] == ["d", "y"] && ["d"] + ["x"] == ["d", "x"];
    var followed := Plain(links, ["l", "x"], 0).followed;
    assert followed == [["l"]] + ([["d", "x"]] + ([["l"]] + []));
    assert followed[0] == followed[2] && |followed| == 3;
    CanonicalIff(links, ["l", "x"]);
  }

  lemma TwoLinksMeans()
    ensures var links := TwoLinks();
      && [] !in links && ["d"] !in links && ["d", "y"] !in links
      && ["l"] in links && links[["l"]] == Absolute(["d"])
      && ["d", "x"] in links && links[["d", "x"]] == Absolute(["l", "y"])
    ensures Clean([], ["d"]) == ["d"] && Clean([], ["l", "y"]) == ["l", "y"]
  {
    assert "y"[0] != "x"[0] && "d"[0] != "l"[0];
    assert ["d"][0] != ["l"][0] && ["d", "y"][1] != ["d", "x"][1];
    assert |["d"]| == 1 && |["l"]| == 1 && |["d", "x"]| == 2 && |["d", "y"]| == 2;
    CleanNames();
  }

  lemma CleanNames()
    ensures Clean([], ["d"]) == ["d"] && Clean([], ["l", "y"]) == ["l", "y"]
  {
    assert |"d"| != |".."| && |"l"| != |".."| && |"y"| != |".."|;
    assert "d"[0] != "."[0] && "l"[0] != "."[0] && "y"[0] != "."[0];
    assert ["d"][1..] == [] && ["l", "y"][1..] == ["y"] && ["y"][1..] == [];
    assert [] + ["d"] == ["d"] && [] + ["l"] == ["l"] && ["l"] + ["y"] == ["l", "y"];
    assert Clean(["l"], ["y"]) == ["l", "y"];
  }

  lemma PlainSnoc(links: Links, path: Path, name: string, hops: nat)
    requires hops <= MAX_SYMLINK_HOPS && Plain(links, path, hops).result.Ok?
    ensures var parent := Plain(links, path, hops);
      var rest := PlainFollow(links, parent.result.value + [name], hops);
      Plain(links, path + [name], hops) == rest.(followed := parent.followed + rest.followed)
  {
    assert (path + [name])[..|path|] == path;
  }

  lemma PlainRest(links: Links, at: Path, hops: nat)
    requires hops <= MAX_SYMLINK_HOPS && at !in links
    ensures PlainFollow(links, at, hops) == Walk(Ok(at), [])
  {
  }

  lemma PlainLink(links: Links, at: Path, to: Path, hops: nat)
    requires hops <= MAX_SYMLINK_HOPS && at in links && links[at].Absolute? && Clean([], links[at].names) == to
    ensures var rest := Plain(links, to, hops + 1);
      PlainFollow(links, at, hops) == rest.(followed := [at] + rest.followed)
  {
  }

  lemma PlainRoot(links: Links, hops: nat)
    requires hops <= MAX_SYMLINK_HOPS && [] !in links
    ensures Plain(links, [], hops) == Walk(Ok([]), [])
  {
  }

  lemma PlainOne(links: Links, name: string, hops: nat)
    requires hops < MAX_SYMLINK_HOPS && [] !in links && ["d"] !in links
    requires [name] in links && links[[name]] == Absolute(["d"])
    ensures Plain(links, [name], hops) == Walk(Ok(["d"]), [[name]])
  {
    hide Plain, PlainFollow, Clean;
    CleanNames();
    PlainRoot(links, hops);
    PlainRoot(links, hops + 1);
    PlainSnoc(links, [], name, hops);
    PlainSnoc(links, [], "d", hops + 1);
    PlainRest(links, ["d"], hops + 1);
    PlainLink(links, [name], ["d"], hops);
    assert [] + [name] == [name] && [] + ["d"] == ["d"];
    assert [] + ([[name]] + ([] + [])) == [[name]];
  }

  /******* RejectAliased *******/

  // A flag's path, cleaned and made absolute; None is the empty path.
  datatype Named = Named(flag: string, path: Option<Path>)

  // `sameFile` answers os.Stat of both followed by os.SameFile.
  type SameFile = (Path, Path) -> bool

  datatype Outcome = Distinct | Aliased(i: nat, j: nat) | Failed(error: ResolveError)

  ghost predicate PairOk(links: Links, same: SameFile, a: Named, b: Named) {
    a.path.Some? && b.path.Some? ==>
      var ca, cb := CanonicalPath(links, a.path.value), CanonicalPath(links, b.path.value);
      ca.Ok? && cb.Ok? && ca.value != cb.value && !same(a.path.value, b.path.value)
  }

  // The pair (i, j) is the first that is not ok, for a path that cannot be
  // resolved.
  ghost predicate FailsFirst(links: Links, same: SameFile, files: seq<Named>, i: int, j: int, e: ResolveError)
    requires 0 <= i < j < |files|
  {
    && files[i].path.Some? && files[j].path.Some?
    && (var ci, cj := CanonicalPath(links, files[i].path.value), CanonicalPath(links, files[j].path.value);
        ci == Err(e) || (ci.Ok? && cj == Err(e)))
    && forall a, b | 0 <= a < b < |files| && (a < i || (a == i && b < j)) :: PairOk(links, same, files[a], files[b])
  }

  method FilesAlias(links: Links, same: SameFile, a: Path, b: Path) returns (r: Result<bool, ResolveError>)
    ensures var ca, cb := CanonicalPath(links, a), CanonicalPath(links, b);
      r == if ca.Err? then Err(ca.error) else if cb.Err? then Err(cb.error) else Ok(ca.value == cb.value || same(a, b))
  {
    var first := new Resolver(links);
    var ca := first.ResolvePath(a, 0);
    if ca.Err? {
      return Err(ca.error);
    }
    var second := new Resolver(links);
    var cb := second.ResolvePath(b, 0);
    if cb.Err? {
      return Err(cb.error);
    }
    if ca.value == cb.value {
      return Ok(true);
    }
    return Ok(same(a, b));
  }

  // Accepted exactly when every two named files have canonical paths that
  // differ and are not one inode; otherwise the first offending pair decides.
  method RejectAliased(links: Links, same: SameFile, files: seq<Named>) returns (r: Outcome)
    ensures r.Distinct? <==> forall i, j | 0 <= i < j < |files| :: PairOk(links, same, files[i], files[j])
    ensures r.Aliased? ==>
      && r.i < r.j < |files| && files[r.i].path.Some? && files[r.j].path.Some?
      && (CanonicalPath(links, files[r.i].path.value) == CanonicalPath(links, files[r.j].path.value)
          || same(files[r.i].path.value, files[r.j].path.value))
      && forall i, j | 0 <= i < j < |files| && (i < r.i || (i == r.i && j < r.j)) ::
           PairOk(links, same, files[i], files[j])
    ensures r.Failed? ==> exists i, j | 0 <= i < j < |files| :: FailsFirst(links, same, files, i, j, r.error)
  {
    hide CanonicalPath;
    for i := 0 to |files|
      invariant forall a, b | 0 <= a < i && a < b < |files| :: PairOk(links, same, files[a], files[b])
    {
      if files[i].path.None? {
        continue;
      }
      for j := i + 1 to |files|
        invariant forall a, b | 0 <= a < i && a < b < |files| :: PairOk(links, same, files[a], files[b])
        invariant forall b | i < b < j :: PairOk(links, same, files[i], files[b])
      {
        if files[j].path.None? {
          continue;
        }
        var alias := FilesAlias(links, same, files[i].path.value, files[j].path.value);
        if alias.Err? || alias.value {
          assert !PairOk(links, same, files[i], files[j]);
          if alias.Err? {
            assert FailsFirst(links, same, files, i, j, alias.error);
            return Failed(alias.error);
          }
          return Aliased(i, j);
        }
      }
    }
    return Distinct;
  }

  /******* Where a link leads *******/

  ghost predicate PlainNames(names: seq<string>) {
    forall n | n in names :: n != "" && n != "." && n != ".."
  }

  lemma {:induction false} CleanPlain(base: Path, names: seq<string>)
    requires PlainNames(names)
    ensures Clean(base, names) == base + names
    decreases |names|
  {
    if names == [] {
      assert base + names == base;
    } else {
      assert names[0] in names && forall n | n in names[1..] :: n in names;
      CleanPlain(base + [names[0]], names[1..]);
      assert base + [names[0]] + names[1..] == base + names;
    }
  }

  // filepath.Clean name by name: it may stop anywhere and go on, empty names
  // and dots lead nowhere, two dots up, any other name down.
  lemma {:induction false} CleanMeans(base: Path, a: seq<string>, b: seq<string>, n: string)
    ensures Clean(base, a + b) == Clean(Clean(base, a), b)
    ensures Clean(base, [n]) == if n in {"", "."} then base else if n != ".." then base + [n]
                                else if base == [] then [] else base[..|base| - 1]
    decreases |a|
  {
    if a == [] {
      assert a + b == b;
    } else {
      var next := if a[0] == "" || a[0] == "." then base else if a[0] == ".." then Dir(base) else base + [a[0]];
      CleanMeans(next, a[1..], b, n);
      assert (a + b)[1..] == a[1..] + b;
    }
  }

  function Ups(up: nat): seq<string> {
    if up == 0 then [] else [".."] + Ups(up - 1)
  }

  lemma {:induction false} CleanUps(base: Path, up: nat, names: seq<string>)
    requires PlainNames(names)
    ensures Clean(base, Ups(up) + names) == base[..if up < |base| then |base| - up else 0] + names
    decreases up
  {
    if up == 0 {
      CleanPlain(base, names);
      assert Ups(0) + names == names && base[..|base|] == base;
    } else {
      CleanUps(Dir(base), up - 1, names);
      assert (Ups(up) + names)[1..] == Ups(up - 1) + names;
    }
  }

  // A relative link in a resolved directory leads from that directory, `up`
  // names up (never above the root) and down again; an absolute one from the
  // root.
  lemma LinkLeads(links: Links, dir: Path, name: string, up: nat, names: seq<string>)
    requires Settled(links, dir) && PlainNames(names) && dir + [name] in links
    ensures links[dir + [name]] == Relative(Ups(up) + names) ==>
      var to := dir[..if up < |dir| then |dir| - up else 0] + names;
      Settled(links, to) ==> CanonicalPath(links, dir + [name]) == Ok(to)
    ensures links[dir + [name]] == Absolute(Ups(up) + names) && Settled(links, names) ==>
      CanonicalPath(links, dir + [name]) == Ok(names)
  {
    hide Settled, CanonicalPath, Ups, PlainNames;
    var at := dir + [name];
    assert Dir(at) == dir;
    CleanUps(dir, up, names);
    CleanUps([], up, names);
    assert [][..0] + names == names;
    if !links[at].Unreadable? && Settled(links, TargetPath(at, links[at])) {
      LinkFollowed(links, dir, name);
    }
  }

  lemma LinkFollowed(links: Links, dir: Path, name: string)
    requires Settled(links, dir) && dir + [name] in links && !links[dir + [name]].Unreadable?
    requires Settled(links, TargetPath(dir + [name], links[dir + [name]]))
    ensures CanonicalPath(links, dir + [name]) == Ok(TargetPath(dir + [name], links[dir + [name]]))
  {
    hide Settled, TargetPath;
    var at := dir + [name];
    assert at[..|at| - 1] == dir;
    SettledStays(links, dir, 0, {});
    assert Resolve(links, at, 0, {}).result == Follow(links, at, 0, {}).result;
    SettledStays(links, TargetPath(at, links[at]), 1, {} + {at});
  }

  /******* The hop limit *******/

  function Name(k: nat): (n: string)
    ensures |n| == k + 3
  {
    if k == 0 then "aaa" else "a" + Name(k - 1)
  }

  // n links in the root, each to the next name.
  ghost predicate IsChain(links: Links, n: nat) {
    && [] !in links && [Name(n)] !in links
    && forall j: nat | j < n :: [Name(j)] in links && links[[Name(j)]] == Relative([Name(j + 1)])
  }

  // A chain of links is resolved exactly when it is no longer than 256.
  lemma ChainLimit(links: Links, n: nat)
    requires IsChain(links, n)
    ensures CanonicalPath(links, [Name(0)]) == if n <= 256 then Ok([Name(n)]) else Err(HopLimit)
  {
    ChainFrom(links, n, 0, {});
  }

  lemma {:induction false} ChainFrom(links: Links, n: nat, k: nat, seen: set<Path>)
    requires IsChain(links, n) && k <= n && k <= MAX_SYMLINK_HOPS + 1
    requires [] !in seen && forall j: nat | j >= k :: [Name(j)] !in seen
    ensures Resolve(links, [Name(k)], k, seen).result == if n <= 256 then Ok([Name(n)]) else Err(HopLimit)
    decreases n - k
  {
    hide Resolve, Name;
    if k > MAX_SYMLINK_HOPS {
      TooManyHops(links, [Name(k)], k, seen);
    } else {
      ChainStep(links, n, k, seen);
      if k < n {
        ChainFrom(links, n, k + 1, seen + {[Name(k)]});
      }
    }
  }

  lemma TooManyHops(links: Links, path: Path, hops: nat, seen: set<Path>)
    requires hops == MAX_SYMLINK_HOPS + 1
    ensures Resolve(links, path, hops, seen).result == Err(HopLimit)
  {
  }

  lemma ChainStep(links: Links, n: nat, k: nat, seen: set<Path>)
    requires IsChain(links, n) && k <= n && k <= MAX_SYMLINK_HOPS
    requires [] !in seen && forall j: nat | j >= k :: [Name(j)] !in seen
    ensures Resolve(links, [Name(k)], k, seen).result
         == if k < n then Resolve(links, [Name(k + 1)], k + 1, seen + {[Name(k)]}).result else Ok([Name(n)])
    ensures [] !in seen + {[Name(k)]} && forall j: nat | j >= k + 1 :: [Name(j)] !in seen + {[Name(k)]}
  {
    hide Name, TargetPath;
    var at := [Name(k)];
    assert at[..0] == [] && [] + [Name(k)] == at;
    ResolveOne(links, Name(k), k, seen);
    if k < n {
      ChainTarget(k);
    }
    forall j: nat | j >= k + 1 ensures [Name(j)] !in seen + {at} {
      assert |[Name(j)][0]| != |at[0]|;
    }
  }

  // A name in the root.
  lemma ResolveOne(links: Links, name: string, hops: nat, seen: set<Path>)
    requires hops <= MAX_SYMLINK_HOPS && [] !in links && [] !in seen
    ensures Resolve(links, [name], hops, seen).result == Follow(links, [name], hops, seen).result
  {
    hide TargetPath;
    assert [name][..0] == [] && [] + [name] == [name];
    assert Resolve(links, [], hops, seen) == Resolution(Ok([]), seen, []);
  }

  lemma ChainTarget(k: nat)
    ensures TargetPath([Name(k)], Relative([Name(k + 1)])) == [Name(k + 1)]
  {
    assert Dir([Name(k)]) == [];
    CleanPlain([], [Name(k + 1)]);
    assert [] + [Name(k + 1)] == [Name(k + 1)];
  }
}
