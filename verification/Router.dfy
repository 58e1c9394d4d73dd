/** The vault's request router: backends mounted at path prefixes. */
module Router {
  import opened Wrappers
  import opened PathTrie

  datatype RouterEntry = RouterEntry(tainted: bool, backend: nat, rootPaths: map<string, bool>, unauthPaths: map<string, bool>)

  datatype Code = Done | PathProtected | PathExists | NotMatched | MountConflict | MountNotFound | Failed

  type Mounts = map<string, RouterEntry>

  // ---------- Operations as functions ----------

  /** The mount a path is routed to. */
  function Route(m: Mounts, path: string): Option<string> { Ancestor(m, path) }

  function Mount(m: Mounts, prefix: string, e: RouterEntry): (Mounts, Code) {
    if Route(m, prefix).Some? then (m, MountConflict) else (m[prefix := e], Done)
  }

  function Remount(m: Mounts, dst: string, src: string): (Mounts, Code) {
    if src in m then ((m - {src})[dst := m[src]], Done) else (m, MountNotFound)
  }

  function SetTaint(m: Mounts, path: string, tainted: bool): (Mounts, Code) {
    if path in m then (m[path := m[path].(tainted := tainted)], Done) else (m, MountNotFound)
  }

  function MatchingMount(m: Mounts, path: string): string {
    var r := Route(m, path);
    if r.Some? then r.value else ""
  }

  function Slashed(path: string): string {
    if path != "" && path[|path| - 1] == '/' then path else path + "/"
  }

  predicate Protected(path: string) {
    "audit/" <= path || "auth/" <= path || "sys/" <= path
  }

  /** Mounting a new backend; building it and saving the mount table may fail. */
  function CoreMount(m: Mounts, path: string, e: RouterEntry, built: bool, saved: bool): (Mounts, Code) {
    var at := Slashed(path);
    if Protected(at) then (m, PathProtected)
    else if MatchingMount(m, at) != "" then (m, PathExists)
    else if !built then (m, Failed)
    else
      var (m', code) := Mount(m, at, e);
      (m', if code.Done? && !saved then Failed else code)
  }

  /** Removing a backend; marking it in the mount table may fail, clearing its storage too. */
  function CoreUnmount(m: Mounts, path: string, marked: bool, cleared: bool): (Mounts, Code) {
    var at := Slashed(path);
    if Protected(at) then (m, PathProtected)
    else if MatchingMount(m, at) == "" || MatchingMount(m, at) != at then (m, NotMatched)
    else if !marked then (m, Failed)
    else
      var (m', code) := SetTaint(m, at, true);
      if !code.Done? then (m', code) else (m' - {at}, if cleared then Done else Failed)
  }

  /** Moving a backend; saving the mount table may fail and then the source stays tainted. */
  function CoreRemount(m: Mounts, src: string, dst: string, saved: bool): (Mounts, Code) {
    var (src, dst) := (Slashed(src), Slashed(dst));
    if Protected(src) || Protected(dst) then (m, PathProtected)
    else if MatchingMount(m, dst) != "" then (m, PathExists)
    else if Route(m, src).None? then (m, NotMatched)
    else
      var (m1, code1) := SetTaint(m, src, true);
      if !code1.Done? then (m1, code1)
      else if MatchingMount(m1, dst) != "" then (m1, PathExists)
      else if !saved then (m1, Failed)
      else
        var (m2, code2) := Remount(m1, dst, src);
        if !code2.Done? then (m2, code2) else SetTaint(m2, dst, false)
  }

  function WithSlash(path: string): string { if '/' in path then path else path + "/" }

  /** A mount over a path that no other mount over it is longer than. */
  predicate Longest(m: Mounts, mount: string, path: string) {
    mount in m && mount <= path && forall k :: k in m && k <= path ==> |k| <= |mount|
  }

  lemma LongestUnique(m: Mounts, mount: string, path: string)
    requires Longest(m, mount, path)
    ensures forall other :: Longest(m, other, path) ==> other == mount
  {
    forall other | Longest(m, other, path)
      ensures other == mount
    {
      assert other == path[..|other|] && mount == path[..|mount|];
    }
  }

  // ---------- The router object ----------

  class RouterTable {
    var root: Mounts

    constructor ()
      ensures root == map[]
    {
      root := map[];
    }

    method MountBackend(prefix: string, backend: nat, rootPaths: seq<string>, unauthPaths: seq<string>) returns (code: Code)
      modifies this
      ensures (root, code) == Mount(old(root), prefix, RouterEntry(false, backend, Index(rootPaths), Index(unauthPaths)))
    {
      if Ancestor(root, prefix).Some? {
        return MountConflict;
      }
      var unauth := NewRadixFromPaths(unauthPaths);
      var rootOnly := NewRadixFromPaths(rootPaths);
      root := root[prefix := RouterEntry(false, backend, rootOnly, unauth)];
      code := Done;
    }

    method Unmount(prefix: string)
      modifies this
      ensures root == old(root) - {prefix}
    {
      root := root - {prefix};
    }

    method Move(dst: string, src: string) returns (code: Code)
      modifies this
      ensures (root, code) == Remount(old(root), dst, src)
    {
      if src !in root {
        return MountNotFound;
      }
      var raw := root[src];
      root := root - {src};
      root := root[dst := raw];
      code := Done;
    }

    method Taint(path: string, tainted: bool) returns (code: Code)
      modifies this
      ensures (root, code) == SetTaint(old(root), path, tainted)
    {
      if path !in root {
        return MountNotFound;
      }
      root := root[path := root[path].(tainted := tainted)];
      code := Done;
    }

    /** Where a request goes and the path its backend sees: the longest mount over the path and the rest
        of the path.  A missing slash is added first, and a rest of only a slash becomes empty.  A tainted
        mount serves revocation and rollback only. */
    method HandleRequest(path: string, revoking: bool) returns (target: Option<(string, string)>)
      ensures var full := if exists i :: 0 <= i < |path| && path[i] == '/' then path else path + "/";
              match target
              case None => forall mount :: Longest(root, mount, full) ==> root[mount].tainted && !revoking
              case Some((mount, remain)) =>
                && Longest(root, mount, full)
                && remain == (if full == mount + "/" then "" else full[|mount|..])
                && (root[mount].tainted ==> revoking)
    {
      var full := path;
      if '/' !in full {
        full := full + "/";
      }
      assert full == WithSlash(path);
      var r := Ancestor(root, full);
      if r.None? {
        return None;
      }
      assert Longest(root, r.value, full);
      LongestUnique(root, r.value, full);
      if root[r.value].tainted && !revoking {
        return None;
      }
      var remain := WithoutFirst(full, r.value);
      if remain == "/" {
        remain := "";
      }
      target := Some((r.value, remain));
    }

    /** Whether a path may be used without a token. */
    method IsUnauthPath(path: string) returns (b: bool)
      ensures b == (Route(root, path).Some? && Accepts(root[Route(root, path).value].unauthPaths, path[|Route(root, path).value|..]))
    {
      var r := Ancestor(root, path);
      if r.None? {
        return false;
      }
      var remain := WithoutFirst(path, r.value);
      var patterns := root[r.value].unauthPaths;
      var found := Ancestor(patterns, remain);
      if found.None? {
        return false;
      }
      if patterns[found.value] {
        return found.value <= remain;
      }
      b := remain == found.value;
    }

    /** Whether a path needs the root token. */
    method IsRootPath(path: string) returns (b: bool)
      ensures b == (Route(root, path).Some? && Accepts(root[Route(root, path).value].rootPaths, path[|Route(root, path).value|..]))
    {
      var r := Ancestor(root, path);
      if r.None? {
        return false;
      }
      var remain := WithoutFirst(path, r.value);
      var patterns := root[r.value].rootPaths;
      var found := Ancestor(patterns, remain);
      if found.None? {
        return false;
      }
      if patterns[found.value] {
        return found.value <= remain;
      }
      b := remain == found.value;
    }
  }

  class MountCore {
    const router: RouterTable

    constructor (router: RouterTable)
      ensures this.router == router
    {
      this.router := router;
    }

    method MountEntry(path: string, backend: nat, rootPaths: seq<string>, unauthPaths: seq<string>, built: bool, saved: bool)
      returns (code: Code)
      modifies router
      ensures (router.root, code) ==
              CoreMount(old(router.root), path, RouterEntry(false, backend, Index(rootPaths), Index(unauthPaths)), built, saved)
    {
      var at := path;
      if at == "" || at[|at| - 1] != '/' {
        at := at + "/";
      }
      if Protected(at) {
        return PathProtected;
      }
      if MatchingMount(router.root, at) != "" {
        return PathExists;
      }
      if !built {
        return Failed;
      }
      code := router.MountBackend(at, backend, rootPaths, unauthPaths);
      if code.Done? && !saved {
        code := Failed;
      }
    }

    method UnmountEntry(path: string, marked: bool, cleared: bool) returns (code: Code)
      modifies router
      ensures (router.root, code) == CoreUnmount(old(router.root), path, marked, cleared)
    {
      var at := path;
      if at == "" || at[|at| - 1] != '/' {
        at := at + "/";
      }
      if Protected(at) {
        return PathProtected;
      }
      var found := MatchingMount(router.root, at);
      if found == "" || found != at {
        return NotMatched;
      }
      if !marked {
        return Failed;
      }
      code := router.Taint(at, true);
      if code.Done? {
        router.Unmount(at);
        if !cleared {
          code := Failed;
        }
      }
    }

    method RemountEntry(from: string, to: string, saved: bool) returns (code: Code)
      modifies router
      ensures (router.root, code) == CoreRemount(old(router.root), from, to, saved)
    {
      var src, dst := from, to;
      if src == "" || src[|src| - 1] != '/' {
        src := src + "/";
      }
      if dst == "" || dst[|dst| - 1] != '/' {
        dst := dst + "/";
      }
      if Protected(src) || Protected(dst) {
        return PathProtected;
      }
      if MatchingMount(router.root, dst) != "" {
        return PathExists;
      }
      if Route(router.root, src).None? {
        return NotMatched;
      }
      code := router.Taint(src, true);
      if !code.Done? {
        return;
      }
      if MatchingMount(router.root, dst) != "" {
        return PathExists;
      }
      if !saved {
        return Failed;
      }
      code := router.Move(dst, src);
      if code.Done? {
        code := router.Taint(dst, false);
      }
    }
  }

  // ---------- Properties ----------

  /** A mount succeeds exactly when the prefix is unrouted; then routed paths keep their mount, unrouted
      paths under the prefix go to it, and no other path becomes routed. */
  lemma MountRoutes(m: Mounts, prefix: string, e: RouterEntry, path: string)
    ensures var (m', code) := Mount(m, prefix, e);
            && (code.Done? <==> forall k :: k in m ==> !(k <= prefix))
            && Route(m', path) == (if code.Done? && Route(m, path).None? && prefix <= path then Some(prefix) else Route(m, path))
            && (Route(m, path).Some? ==> m'[Route(m, path).value] == m[Route(m, path).value])
  {
    var (m', code) := Mount(m, prefix, e);
    var r := Route(m, path);
    if code.Done? {
      var r' := if r.None? && prefix <= path then Some(prefix) else r;
      AncestorUnique(m', path, r');
    }
  }

  lemma TaintKeepsRoutes(m: Mounts, at: string, tainted: bool, path: string)
    ensures Route(SetTaint(m, at, tainted).0, path) == Route(m, path)
  {
    AncestorUnique(SetTaint(m, at, tainted).0, path, Route(m, path));
  }

  /** Moving a mount: what was routed elsewhere stays, what was unrouted under the destination goes there,
      and what the source served falls back to a shorter mount, else to the destination if it is below it. */
  lemma RemountRoutes(m: Mounts, dst: string, src: string, path: string)
    requires src in m && Route(m, dst).None?
    ensures var m' := Remount(m, dst, src).0;
            Route(m', path) ==
            if Route(m, path).Some? && Route(m, path).value != src then Route(m, path)
            else if Route(m - {src}, path).Some? then Route(m - {src}, path)
            else if dst <= path then Some(dst)
            else None
  {
    var m' := Remount(m, dst, src).0;
    var rest := Route(m - {src}, path);
    if Route(m, path).Some? && Route(m, path).value != src {
      AncestorUnique(m - {src}, path, Route(m, path));
    }
    AncestorUnique(m', path, if rest.Some? then rest else if dst <= path then Some(dst) else None);
  }

  /** The whole remount: when it succeeds, what it changes then, and that a failure changes no route. */
  lemma CoreRemountRoutes(m: Mounts, from: string, to: string, saved: bool, path: string)
    requires "" !in m
    ensures var (m', code) := CoreRemount(m, from, to, saved);
            var (src, dst) := (Slashed(from), Slashed(to));
            && (code.Done? <==> !Protected(src) && !Protected(dst) && src in m && Route(m, dst).None? && saved)
            && (code.Done? ==> dst in m' && m'[dst] == m[src].(tainted := false))
            && Route(m', path) ==
               (if !code.Done? || (Route(m, path).Some? && Route(m, path).value != src) then Route(m, path)
                else if Route(m - {src}, path).Some? then Route(m - {src}, path)
                else if dst <= path then Some(dst)
                else None)
  {
    hide Protected, Slashed, Ancestor;
    var (m', code) := CoreRemount(m, from, to, saved);
    var (src, dst) := (Slashed(from), Slashed(to));
    if src in m {
      var m1 := SetTaint(m, src, true).0;
      TaintKeepsRoutes(m, src, true, path);
      TaintKeepsRoutes(m, src, true, dst);
      if Route(m, dst).None? {
        RemountRoutes(m1, dst, src, path);
        TaintKeepsRoutes(Remount(m1, dst, src).0, dst, false, path);
        assert m1 - {src} == m - {src};
      }
    }
  }

  /** Why a remount is refused. */
  lemma RemountRefusedExactly(m: Mounts, from: string, to: string, saved: bool)
    requires "" !in m
    ensures var code := CoreRemount(m, from, to, saved).1;
            var (src, dst) := (Slashed(from), Slashed(to));
            var open := !Protected(src) && !Protected(dst);
            && (code.PathProtected? <==> Protected(src) || Protected(dst))
            && (code.PathExists? <==> open && exists k :: k in m && k <= dst)
            && (code.NotMatched? <==> open && (forall k :: k in m ==> !(k <= dst) && !(k <= src)))
            && (code.MountNotFound? <==> open && (forall k :: k in m ==> !(k <= dst)) && src !in m && exists k :: k in m && k <= src)
  {
    hide Protected, Slashed;
    var (src, dst) := (Slashed(from), Slashed(to));
    if src in m {
      TaintKeepsRoutes(m, src, true, dst);
    }
  }

  /** A request for a path is served: it has a mount, and the longest one is not tainted. */
  predicate Serves(m: Mounts, path: string) {
    var r := Route(m, WithSlash(path));
    r.Some? && !m[r.value].tainted
  }

  /** What a failed remount leaves behind: nothing, except that when only the saving failed the source is tainted
      and all its paths are refused. */
  lemma FailedRemountStops(m: Mounts, from: string, to: string, saved: bool, path: string)
    requires "" !in m
    ensures var (m', code) := CoreRemount(m, from, to, saved);
            var (src, dst) := (Slashed(from), Slashed(to));
            && (code.Failed? <==> !Protected(src) && !Protected(dst) && src in m && Route(m, dst).None? && !saved)
            && (code.Failed? ==> m' == m[src := m[src].(tainted := true)])
            && (!code.Done? && !code.Failed? ==> m' == m)
            && (!code.Done? ==>
                  (Serves(m', path) <==> Serves(m, path) && !(code.Failed? && Route(m, WithSlash(path)) == Some(src))))
  {
    hide Protected, Slashed, Ancestor, WithSlash;
    var (src, dst) := (Slashed(from), Slashed(to));
    if src in m {
      TaintKeepsRoutes(m, src, true, WithSlash(path));
      TaintKeepsRoutes(m, src, true, dst);
    }
  }

  lemma UnmountRoutes(m: Mounts, at: string, path: string)
    requires Route(m, path) != Some(at)
    ensures Route(m - {at}, path) == Route(m, path)
  {
    AncestorUnique(m - {at}, path, Route(m, path));
  }

  lemma SlashedEnds(path: string)
    ensures path <= Slashed(path) && Slashed(path)[|Slashed(path)| - 1] == '/' && |Slashed(path)| <= |path| + 1
    ensures Slashed(Slashed(path)) == Slashed(path)
  {
  }

  /** The whole mount: it is accepted exactly for an unprotected path with no mount on the way to it, when the backend can
      be built and the table saved; and it is there afterwards, also when only the saving failed. */
  lemma CoreMountExactly(m: Mounts, path: string, e: RouterEntry, built: bool, saved: bool, q: string)
    requires "" !in m
    ensures var (m', code) := CoreMount(m, path, e, built, saved);
            var at := Slashed(path);
            var placed := !Protected(at) && (forall k :: k in m ==> !(k <= at)) && built;
            && (code.Done? <==> placed && saved)
            && (code.Failed? <==> (!Protected(at) && (forall k :: k in m ==> !(k <= at))) && !(built && saved))
            && (code.PathProtected? <==> Protected(at))
            && (code.PathExists? <==> !Protected(at) && exists k :: k in m && k <= at)
            && m' == (if placed then m[at := e] else m)
            && Route(m', q) == (if placed && Route(m, q).None? && at <= q then Some(at) else Route(m, q))
  {
    hide Protected, Slashed, Ancestor;
    var at := Slashed(path);
    MountRoutes(m, at, e, q);
  }

  /** The whole unmount: it succeeds exactly for an unprotected mount when the mount table can be marked and the storage
      cleared.  The mount is gone, also when only the clearing failed: its paths go to the longest mount left over them.
      Any other answer changes nothing. */
  lemma CoreUnmountExactly(m: Mounts, path: string, marked: bool, cleared: bool, q: string)
    requires "" !in m
    ensures var (m', code) := CoreUnmount(m, path, marked, cleared);
            var at := Slashed(path);
            var gone := !Protected(at) && at in m && marked;
            && (code.Done? <==> gone && cleared)
            && (code.Failed? <==> !Protected(at) && at in m && !(marked && cleared))
            && (code.PathProtected? <==> Protected(at)) && (code.NotMatched? <==> !Protected(at) && at !in m)
            && m' == (if gone then m - {at} else m)
            && (gone ==> Route(m', q) != Some(at) && (Route(m, q) != Some(at) ==> Route(m', q) == Route(m, q)))
            && (forall k :: Longest(m', k, q) ==> Route(m', q) == Some(k))
  {
    hide Protected, Slashed, Ancestor;
    var at := Slashed(path);
    var (m', code) := CoreUnmount(m, path, marked, cleared);
    OwnRoute(m, at);
    assert at in m ==> SetTaint(m, at, true).0 - {at} == m - {at};
    if Route(m, q) != Some(at) {
      UnmountRoutes(m, at, q);
    }
    RouteIsStored(m', q);
    forall k | Longest(m', k, q)
      ensures Route(m', q) == Some(k)
    {
      AncestorUnique(m', q, Some(k));
    }
  }

  /** A mount routes its own path. */
  lemma OwnRoute(m: Mounts, at: string)
    ensures at in m ==> Route(m, at) == Some(at)
    ensures at !in m ==> Route(m, at) != Some(at)
  {
    if at in m {
      AncestorUnique(m, at, Some(at));
    }
  }

  lemma RouteIsStored(m: Mounts, path: string)
    ensures Route(m, path).Some? ==> Route(m, path).value in m
  {
  }

  /** Mounting and unmounting again restores the router. */
  lemma UnmountUndoesMount(m: Mounts, path: string, e: RouterEntry)
    requires "" !in m && CoreMount(m, path, e, true, true).1.Done?
    ensures CoreUnmount(CoreMount(m, path, e, true, true).0, path, true, true) == (m, Done)
  {
    hide Protected, Slashed, Ancestor;
    CoreMountExactly(m, path, e, true, true, "");
    var m1, at := CoreMount(m, path, e, true, true).0, Slashed(path);
    SlashedIsNotEmpty(path);
    CoreUnmountExactly(m1, path, true, true, "");
    assert at !in m;
    assert m[at := e] - {at} == m;
  }

  lemma SlashedIsNotEmpty(path: string)
    ensures Slashed(path) != ""
  {
  }

  // ---------- Runs ----------

  datatype Op =
    | OpMount(path: string, entry: RouterEntry, built: bool, saved: bool)
    | OpUnmount(path: string, marked: bool, cleared: bool)
    | OpRemount(src: string, dst: string, saved: bool)

  function Step(m: Mounts, op: Op): Mounts {
    match op
    case OpMount(path, e, built, saved) => CoreMount(m, path, e, built, saved).0
    case OpUnmount(path, marked, cleared) => CoreUnmount(m, path, marked, cleared).0
    case OpRemount(src, dst, saved) => CoreRemount(m, src, dst, saved).0
  }

  function Run(m: Mounts, ops: seq<Op>): Mounts
    decreases |ops|
  {
    if ops == [] then m else Run(Step(m, ops[0]), ops[1..])
  }

  /** The operation is not about removing or moving this mount. */
  predicate Spares(op: Op, mount: string) {
    match op
    case OpMount(_, _, _, _) => true
    case OpUnmount(path, _, _) => Slashed(path) != mount
    case OpRemount(src, _, _) => Slashed(src) != mount
  }

  lemma StepKeepsProper(m: Mounts, op: Op)
    requires "" !in m
    ensures "" !in Step(m, op)
    ensures op.OpMount? ==> !CoreMount(m, op.path, op.entry, op.built, op.saved).1.MountConflict?
  {
    hide Protected, Ancestor;
  }

  lemma StepKeepsRoute(m: Mounts, op: Op, path: string)
    requires "" !in m && Route(m, path).Some? && Spares(op, Route(m, path).value)
    ensures Route(Step(m, op), path) == Route(m, path)
    ensures Step(m, op)[Route(m, path).value] == m[Route(m, path).value]
  {
    hide Protected, Slashed, Ancestor;
    match op
    case OpMount(at, e, built, saved) => MountRoutes(m, Slashed(at), e, path);
    case OpUnmount(at, marked, cleared) =>
      UnmountRoutes(m, Slashed(at), path);
      TaintKeepsRoutes(m, Slashed(at), true, path);
      if Slashed(at) in m {
        assert SetTaint(m, Slashed(at), true).0 - {Slashed(at)} == m - {Slashed(at)};
      }
    case OpRemount(src, dst, saved) => CoreRemountRoutes(m, src, dst, saved, path);
  }

  /** Through any run that neither removes nor moves its mount, a routed path keeps its mount and backend. */
  lemma {:induction false} RunKeepsRoute(m: Mounts, ops: seq<Op>, path: string)
    requires "" !in m && Route(m, path).Some?
    requires forall i :: 0 <= i < |ops| ==> Spares(ops[i], Route(m, path).value)
    ensures "" !in Run(m, ops) && Route(Run(m, ops), path) == Route(m, path)
    ensures Run(m, ops)[Route(m, path).value] == m[Route(m, path).value]
    decreases |ops|
  {
    hide Step, Spares, Ancestor;
    if ops != [] {
      StepKeepsProper(m, ops[0]);
      StepKeepsRoute(m, ops[0], path);
      RunKeepsRoute(Step(m, ops[0]), ops[1..], path);
    }
  }

  predicate Reserved(mount: string) {
    |mount| >= 4 && (mount[..4] == "sys/" || (|mount| >= 5 && mount[..5] == "auth/") || (|mount| >= 6 && mount[..6] == "audit/"))
  }

  lemma ReservedIsProtected(mount: string)
    ensures Reserved(mount) <==> Protected(mount)
  {
  }

  lemma StepKeepsReserved(m: Mounts, op: Op, mount: string)
    requires "" !in m && Reserved(mount)
    ensures mount in Step(m, op) <==> mount in m
    ensures mount in m ==> Step(m, op)[mount] == m[mount]
  {
    hide Slashed, Ancestor, Protected;
    ReservedIsProtected(mount);
    match op
    case OpMount(at, e, built, saved) => CoreMountExactly(m, at, e, built, saved, "");
    case OpUnmount(at, marked, cleared) => CoreUnmountExactly(m, at, marked, cleared, "");
    case OpRemount(src, dst, saved) =>
  }

  /** No run of mounts, unmounts and remounts adds, removes or changes anything at sys/, auth/ or audit/. */
  lemma {:induction false} RunKeepsReserved(m: Mounts, ops: seq<Op>, mount: string)
    requires "" !in m && Reserved(mount)
    ensures mount in Run(m, ops) <==> mount in m
    ensures mount in m ==> Run(m, ops)[mount] == m[mount]
    decreases |ops|
  {
    hide Step, Reserved;
    if ops != [] {
      StepKeepsProper(m, ops[0]);
      StepKeepsReserved(m, ops[0], mount);
      RunKeepsReserved(Step(m, ops[0]), ops[1..], mount);
    }
  }
}
