/**
 The FTP storage backend (ftp/storage.rs): resolving a client's path below the user's root, the
 permission check, and what each operation does to the file system.
 */
module Ftp {
  import opened Bytes
  import opened Disk

  /** One component of a parsed path. */
  datatype Component = Normal(name: string) | CurDir | ParentDir | RootDir | Prefix

  type Names = seq<string>

  // ---------- Resolving ----------

  /** One component on the stack of names. */
  function Push(parts: Names, comp: Component): Option<Names> {
    match comp
    case Normal(name) => Some(parts + [name])
    case CurDir => Some(parts)
    case ParentDir => if parts == [] then None else Some(parts[..|parts| - 1])
    case RootDir => if parts == [] then Some(parts) else None
    case Prefix => None
  }

  function Walk(parts: Names, comps: seq<Component>): Option<Names>
    decreases |comps|
  {
    if comps == [] then Some(parts)
    else
      var next := Push(parts, comps[0]);
      if next.None? then None else Walk(next.value, comps[1..])
  }

  method Resolve(root: Names, comps: seq<Component>) returns (full: Option<Names>)
    ensures full == match Walk([], comps) case None => None case Some(parts) => Some(root + parts)
  {
    var parts: Names := [];
    for k := 0 to |comps|
      invariant Walk([], comps) == Walk(parts, comps[k..])
    {
      assert comps[k..][0] == comps[k] && comps[k..][1..] == comps[k + 1..];
      match comps[k] {
        case Normal(name) =>
          parts := parts + [name];
        case CurDir =>
        case ParentDir =>
          if parts == [] {
            return None;
          }
          parts := parts[..|parts| - 1];
        case RootDir =>
          if parts != [] {
            return None;
          }
        case Prefix =>
          return None;
      }
    }
    var path := root;
    for k := 0 to |parts|
      invariant path == root + parts[..k]
    {
      assert root + parts[..k + 1] == root + parts[..k] + [parts[k]];
      path := path + [parts[k]];
    }
    assert parts[..|parts|] == parts;
    return Some(path);
  }

  // ---------- When it fails ----------

  /** Names entered minus names left. */
  function Depth(comps: seq<Component>): int {
    if comps == [] then 0
    else Depth(comps[..|comps| - 1]) + match comps[|comps| - 1] case Normal(_) => 1 case ParentDir => -1 case _ => 0
  }

  /** The component at `k` climbs above the root, comes after names as a root, or is a drive or share prefix. */
  predicate BadAt(start: nat, comps: seq<Component>, k: nat)
    requires k < |comps|
  {
    || start + Depth(comps[..k + 1]) < 0
    || (comps[k].RootDir? && start + Depth(comps[..k]) > 0)
    || comps[k].Prefix?
  }

  lemma {:induction false} DepthConcat(a: seq<Component>, b: seq<Component>)
    ensures Depth(a + b) == Depth(a) + Depth(b)
    decreases |b|
  {
    if b == [] {
      assert a + b == a;
    } else {
      assert (a + b)[..|a + b| - 1] == a + b[..|b| - 1];
      DepthConcat(a, b[..|b| - 1]);
    }
  }

  lemma DepthStep(comps: seq<Component>, k: nat)
    requires 0 < k <= |comps|
    ensures Depth(comps[..k]) == Depth([comps[0]]) + Depth(comps[1..][..k - 1])
    ensures Depth([comps[0]]) == match comps[0] case Normal(_) => 1 case ParentDir => -1 case _ => 0
  {
    assert comps[..k] == [comps[0]] + comps[1..][..k - 1];
    DepthConcat([comps[0]], comps[1..][..k - 1]);
    assert [comps[0]][..0] == [];
  }

  /** Resolution fails exactly when some component is bad. */
  lemma {:induction false} FailsExactly(parts: Names, comps: seq<Component>)
    ensures Walk(parts, comps).None? <==> exists k | 0 <= k < |comps| :: BadAt(|parts|, comps, k)
    decreases |comps|
  {
    if comps == [] {
    } else {
      var next, rest := Push(parts, comps[0]), comps[1..];
      DepthStep(comps, 1);
      assert rest[..0] == [] && comps[..0] == [];
      assert next.None? <==> BadAt(|parts|, comps, 0);
      if next.Some? {
        FailsExactly(next.value, rest);
        forall k | 0 < k < |comps| ensures BadAt(|parts|, comps, k) <==> BadAt(|next.value|, rest, k - 1) {
          DepthStep(comps, k);
          DepthStep(comps, k + 1);
        }
        if k :| 0 <= k < |rest| && BadAt(|next.value|, rest, k) { assert BadAt(|parts|, comps, k + 1); }
      }
    }
  }

  // ---------- The normal form ----------

  function Plain(names: Names): seq<Component> {
    seq(|names|, i requires 0 <= i < |names| => Normal(names[i]))
  }

  lemma {:induction false} WalkConcat(parts: Names, a: seq<Component>, b: seq<Component>)
    ensures Walk(parts, a + b) == match Walk(parts, a) case None => None case Some(there) => Walk(there, b)
    decreases |a|
  {
    if a == [] {
      assert a + b == b;
    } else {
      assert (a + b)[1..] == a[1..] + b;
      var next := Push(parts, a[0]);
      if next.Some? { WalkConcat(next.value, a[1..], b); }
    }
  }

  /** Plain names stand for themselves. */
  lemma {:induction false} PlainStays(parts: Names, names: Names)
    ensures Walk(parts, Plain(names)) == Some(parts + names)
    decreases |names|
  {
    if names == [] {
      assert parts + names == parts;
    } else {
      assert Plain(names)[1..] == Plain(names[1..]);
      assert parts + [names[0]] + names[1..] == parts + names;
      PlainStays(parts + [names[0]], names[1..]);
    }
  }

  /** The rewriting that defines the lexical normal form: a dot, or a name followed by two dots, can go. */
  lemma RewritesAway(a: seq<Component>, name: string, b: seq<Component>)
    ensures Walk([], a + [CurDir] + b) == Walk([], a + b)
    ensures Walk([], a + [Normal(name), ParentDir] + b) == Walk([], a + b)
  {
    WalkConcat([], a, b);
    WalkConcat([], a + [CurDir], b);
    WalkConcat([], a, [CurDir]);
    WalkConcat([], a + [Normal(name), ParentDir], b);
    WalkConcat([], a, [Normal(name), ParentDir]);
    if Walk([], a).Some? {
      var there := Walk([], a).value;
      assert [CurDir][1..] == [];
      assert [Normal(name), ParentDir][1..] == [ParentDir] && [ParentDir][1..] == [];
      assert (there + [name])[..|there|] == there;
      assert Walk(there + [name], [ParentDir]) == Some(there);
    }
  }

  /** How a client's path is joined to its current directory: an absolute one replaces it. */
  function Joined(cwd: seq<Component>, path: seq<Component>): seq<Component> {
    if path != [] && (path[0].RootDir? || path[0].Prefix?) then path else cwd + path
  }

  /** Going to a directory and then naming a path is the same as joining the path to that directory's normal form. */
  lemma NormalFormIsEnough(cwd: seq<Component>, path: seq<Component>)
    requires Walk([], cwd).Some?
    ensures Walk([], Joined(cwd, path)) == Walk([], Joined(Plain(Walk([], cwd).value), path))
  {
    var there := Walk([], cwd).value;
    WalkConcat([], cwd, path);
    WalkConcat([], Plain(there), path);
    PlainStays([], there);
    assert [] + there == there;
  }

  /** A relative path goes on from the current directory; after a leading root, names start at the user's root. */
  lemma FromDirectory(cwd: seq<Component>, path: seq<Component>, names: Names)
    requires Walk([], cwd).Some?
    ensures path == [] || path[0].Normal? || path[0].CurDir? || path[0].ParentDir? ==>
              Walk([], Joined(cwd, path)) == Walk(Walk([], cwd).value, path)
    ensures Walk([], Joined(cwd, [RootDir] + Plain(names))) == Some(names)
  {
    WalkConcat([], cwd, path);
    PlainStays([], names);
    assert ([RootDir] + Plain(names))[1..] == Plain(names) && [] + names == names;
  }

  // ---------- Permissions ----------

  datatype User = User(root: Names, upload: bool, download: bool, delete: bool, readonly: bool)

  datatype Action = Upload | Delete | Rename

  predicate MayWrite(user: User, action: Action) {
    !user.readonly && match action case Upload => user.upload case Delete => user.delete case Rename => user.upload
  }

  // ---------- Operations ----------

  datatype Node = File(data: seq<byte>) | Dir

  type Tree = map<Names, Node>

  datatype Reply = Done | Sends(data: seq<byte>) | Denied | Unavailable

  /** `broken`: the client's connection ends with an error after `data`. */
  datatype Op =
    | Put(path: seq<Component>, start: nat, data: seq<byte>, broken: bool)
    | Del(path: seq<Component>)
    | Mkd(path: seq<Component>)
    | Rmd(path: seq<Component>)
    | Ren(path: seq<Component>, to: seq<Component>)
    | Get(path: seq<Component>, start: nat)

  predicate Permitted(user: User, op: Op) {
    match op
    case Put(_, _, _, _) => MayWrite(user, Upload)
    case Del(_) => MayWrite(user, Delete)
    case Mkd(_) => MayWrite(user, Upload)
    case Rmd(_) => MayWrite(user, Delete)
    case Ren(_, _) => MayWrite(user, Rename)
    case Get(_, _) => user.download
  }

  /** What each operation needs: reading the download permission, every change a user who is not read-only and its own permission. */
  lemma PermittedIs(user: User, op: Op)
    ensures op.Get? ==> (Permitted(user, op) <==> user.download)
    ensures op.Put? || op.Mkd? || op.Ren? ==> (Permitted(user, op) <==> user.upload && !user.readonly)
    ensures op.Del? || op.Rmd? ==> (Permitted(user, op) <==> user.delete && !user.readonly)
  {
  }

  function Locate(user: User, path: seq<Component>): Option<Names> {
    match Walk([], path)
    case None => None
    case Some(parts) => Some(user.root + parts)
  }

  /** Plain names lie below the user's root. */
  lemma PlainLocates(user: User, names: Names)
    ensures Locate(user, Plain(names)) == Some(user.root + names)
  {
    PlainStays([], names);
    assert [] + names == names;
  }

  predicate InDir(tree: Tree, p: Names) {
    p != [] && p[..|p| - 1] in tree && tree[p[..|p| - 1]].Dir?
  }

  predicate IsFile(tree: Tree, p: Names) {
    p in tree && tree[p].File?
  }

  predicate IsEmptyDir(tree: Tree, p: Names) {
    p in tree && tree[p].Dir? && forall q | q in tree :: p <= q ==> q == p
  }

  /** Opened with truncation at offset 0, else written in place. */
  function Written(tree: Tree, p: Names, start: nat, data: seq<byte>): Tree {
    var content := if start > 0 && IsFile(tree, p) then tree[p].data else [];
    tree[p := File(WriteAt(content, start, data))]
  }

  /** Onto itself, or to a place in a directory, outside its own subtree and path; a file may replace a file. */
  predicate CanMove(tree: Tree, from: Names, to: Names) {
    && from in tree
    && (from == to || (InDir(tree, to) && !(from <= to) && !(to <= from) && (to in tree ==> IsFile(tree, to) && IsFile(tree, from))))
  }

  /** Where the entries of the subtree at `from` go. */
  function Destinations(tree: Tree, from: Names, to: Names): set<Names> {
    set q | q in tree && from <= q :: to + q[|from|..]
  }

  lemma DestinationsAre(tree: Tree, from: Names, to: Names, p: Names)
    ensures p in Destinations(tree, from, to) <==> to <= p && from + p[|to|..] in tree
  {
    if to <= p && from + p[|to|..] in tree {
      var q := from + p[|to|..];
      assert to + q[|from|..] == p;
    }
    if p in Destinations(tree, from, to) {
      var q :| q in tree && from <= q && p == to + q[|from|..];
      assert from + p[|to|..] == q;
    }
  }

  /** The whole subtree moves, over whatever was at the destination. */
  function Moved(tree: Tree, from: Names, to: Names): Tree {
    var stays := map q | q in tree && !(from <= q) && !(to <= q) :: tree[q];
    var comes := map p | p in Destinations(tree, from, to) && to <= p && from + p[|to|..] in tree :: tree[from + p[|to|..]];
    stays + comes
  }

  /** What a reader gets who starts at `from`. */
  function Tail(content: seq<byte>, from: nat): seq<byte> {
    if from <= |content| then content[from..] else []
  }

  /** Reply and tree after `op` on resolved paths; the system may refuse for reasons of its own. */
  function OnDisk(tree: Tree, op: Op, full: Names, to: Names, refused: bool): (Reply, Tree) {
    if refused then (Unavailable, tree)
    else
      match op
      case Put(_, start, data, broken) =>
        if InDir(tree, full) && (full in tree ==> tree[full].File?)
        then (if broken then Unavailable else Done, Written(tree, full, start, data)) else (Unavailable, tree)
      case Del(_) => if IsFile(tree, full) then (Done, tree - {full}) else (Unavailable, tree)
      case Mkd(_) => if InDir(tree, full) && full !in tree then (Done, tree[full := Dir]) else (Unavailable, tree)
      case Rmd(_) => if IsEmptyDir(tree, full) then (Done, tree - {full}) else (Unavailable, tree)
      case Ren(_, _) => if CanMove(tree, full, to) then (Done, Moved(tree, full, to)) else (Unavailable, tree)
      case Get(_, start) =>
        if IsFile(tree, full) then (Sends(Tail(tree[full].data, start)), tree) else (Unavailable, tree)
  }

  function Effect(tree: Tree, user: User, op: Op, refused: bool): (Reply, Tree) {
    var full := Locate(user, op.path);
    var to := if op.Ren? then Locate(user, op.to) else full;
    if !Permitted(user, op) || full.None? || to.None? then (Denied, tree)
    else OnDisk(tree, op, full.value, to.value, refused)
  }

  class Storage {
    var tree: Tree

    method CheckWrite(user: User, action: Action) returns (ok: bool)
      ensures ok == MayWrite(user, action)
    {
      if user.readonly {
        return false;
      }
      match action {
        case Upload => return user.upload;
        case Delete => return user.delete;
        case Rename => return user.upload;
      }
    }

    method Put(user: User, path: seq<Component>, start: nat, data: seq<byte>, broken: bool, refused: bool) returns (reply: Reply)
      modifies this
      ensures (reply, tree) == Effect(old(tree), user, Op.Put(path, start, data, broken), refused)
    {
      var ok := CheckWrite(user, Upload);
      if !ok {
        return Denied;
      }
      var full := Resolve(user.root, path);
      if full.None? {
        return Denied;
      }
      if refused || !InDir(tree, full.value) || (full.value in tree && tree[full.value].Dir?) {
        return Unavailable;
      }
      // opening creates the file and truncates it for an upload from the start
      if full.value !in tree || start == 0 {
        tree := tree[full.value := File([])];
      }
      tree := tree[full.value := File(WriteAt(tree[full.value].data, start, data))];
      assert tree == Written(old(tree), full.value, start, data);
      return if broken then Unavailable else Done;
    }

    method Del(user: User, path: seq<Component>, refused: bool) returns (reply: Reply)
      modifies this
      ensures (reply, tree) == Effect(old(tree), user, Op.Del(path), refused)
    {
      var ok := CheckWrite(user, Delete);
      if !ok {
        return Denied;
      }
      var full := Resolve(user.root, path);
      if full.None? {
        return Denied;
      }
      if refused || !IsFile(tree, full.value) {
        return Unavailable;
      }
      tree := tree - {full.value};
      return Done;
    }

    method Mkd(user: User, path: seq<Component>, refused: bool) returns (reply: Reply)
      modifies this
      ensures (reply, tree) == Effect(old(tree), user, Op.Mkd(path), refused)
    {
      var ok := CheckWrite(user, Upload);
      if !ok {
        return Denied;
      }
      var full := Resolve(user.root, path);
      if full.None? {
        return Denied;
      }
      if refused || !InDir(tree, full.value) || full.value in tree {
        return Unavailable;
      }
      tree := tree[full.value := Dir];
      return Done;
    }

    method Rmd(user: User, path: seq<Component>, refused: bool) returns (reply: Reply)
      modifies this
      ensures (reply, tree) == Effect(old(tree), user, Op.Rmd(path), refused)
    {
      var ok := CheckWrite(user, Delete);
      if !ok {
        return Denied;
      }
      var full := Resolve(user.root, path);
      if full.None? {
        return Denied;
      }
      if refused || !IsEmptyDir(tree, full.value) {
        return Unavailable;
      }
      tree := tree - {full.value};
      return Done;
    }

    method Rename(user: User, from: seq<Component>, to: seq<Component>, refused: bool) returns (reply: Reply)
      modifies this
      ensures (reply, tree) == Effect(old(tree), user, Op.Ren(from, to), refused)
    {
      var ok := CheckWrite(user, Action.Rename);
      if !ok {
        return Denied;
      }
      var fromFull := Resolve(user.root, from);
      if fromFull.None? {
        return Denied;
      }
      var toFull := Resolve(user.root, to);
      if toFull.None? {
        return Denied;
      }
      if refused || !CanMove(tree, fromFull.value, toFull.value) {
        return Unavailable;
      }
      tree := Moved(tree, fromFull.value, toFull.value);
      return Done;
    }

    method Get(user: User, path: seq<Component>, start: nat, refused: bool) returns (reply: Reply)
      ensures (reply, tree) == Effect(tree, user, Op.Get(path, start), refused)
    {
      if !user.download {
        return Denied;
      }
      var full := Resolve(user.root, path);
      if full.None? {
        return Denied;
      }
      if refused || !IsFile(tree, full.value) {
        return Unavailable;
      }
      var data := tree[full.value].data;
      return Sends(if start <= |data| then data[start..] else []);
    }
  }

  // ---------- Confinement ----------

  predicate SameAt(t: Tree, t': Tree, q: Names) {
    (q in t <==> q in t') && (q in t ==> t'[q] == t[q])
  }

  lemma PrefixTransitive(a: Names, b: Names, c: Names)
    requires a <= b
    ensures b <= c ==> a <= c
  {
    if b <= c { assert a == c[..|a|]; }
  }

  lemma BelowRoot(user: User, path: seq<Component>, q: Names)
    requires Locate(user, path).Some? && !(user.root <= q)
    ensures !(Locate(user, path).value <= q)
  {
    var full := Locate(user, path).value;
    assert user.root == full[..|user.root|];
    PrefixTransitive(user.root, full, q);
  }

  lemma MovedAt(tree: Tree, from: Names, to: Names, q: Names)
    ensures var t := Moved(tree, from, to);
            if to <= q then (q in t <==> from + q[|to|..] in tree) && (q in t ==> t[q] == tree[from + q[|to|..]])
            else if from <= q then q !in t
            else SameAt(tree, t, q)
  {
    DestinationsAre(tree, from, to, q);
  }

  /** An operation changes an entry only below the user's root, with the permission it needs, and never for a read-only user. */
  lemma ChangesBelowRoot(tree: Tree, user: User, op: Op, refused: bool, q: Names)
    requires !SameAt(tree, Effect(tree, user, op, refused).1, q)
    ensures user.root <= q && Permitted(user, op) && !user.readonly && Effect(tree, user, op, refused).0 != Denied
  {
    if !(user.root <= q) {
      BelowRoot(user, op.path, q);
      if op.Ren? {
        BelowRoot(user, op.to, q);
        MovedAt(tree, Locate(user, op.path).value, Locate(user, op.to).value, q);
      }
    }
  }

  datatype Request = Request(user: User, op: Op, refused: bool)

  function RunAll(tree: Tree, requests: seq<Request>): Tree
    decreases |requests|
  {
    if requests == [] then tree
    else RunAll(Effect(tree, requests[0].user, requests[0].op, requests[0].refused).1, requests[1..])
  }

  /** Over any run of requests by any users: an entry changes only if one of them, not read-only, has it below its root. */
  lemma {:induction false} RunChangesBelowRoots(tree: Tree, requests: seq<Request>, q: Names)
    requires !SameAt(tree, RunAll(tree, requests), q)
    ensures exists i | 0 <= i < |requests| :: requests[i].user.root <= q && !requests[i].user.readonly && Permitted(requests[i].user, requests[i].op)
    decreases |requests|
  {
    var r := requests[0];
    var next := Effect(tree, r.user, r.op, r.refused).1;
    if SameAt(tree, next, q) {
      RunChangesBelowRoots(next, requests[1..], q);
      var i :| 0 <= i < |requests[1..]| && requests[1..][i].user.root <= q && !requests[1..][i].user.readonly
        && Permitted(requests[1..][i].user, requests[1..][i].op);
      assert requests[i + 1] == requests[1..][i];
    } else {
      ChangesBelowRoot(tree, r.user, r.op, r.refused, q);
    }
  }

  /** Denied exactly for a missing permission or a path with a bad component. */
  lemma DeniedExactly(tree: Tree, user: User, op: Op, refused: bool)
    ensures Effect(tree, user, op, refused).0 == Denied <==>
              || !Permitted(user, op)
              || (exists k | 0 <= k < |op.path| :: BadAt(0, op.path, k))
              || (op.Ren? && exists k | 0 <= k < |op.to| :: BadAt(0, op.to, k))
  {
    FailsExactly([], op.path);
    if op.Ren? { FailsExactly([], op.to); }
  }

  /**
   A permitted request on a path that resolves succeeds exactly when the system does not refuse it and the entry is of the right kind;
   if it does not succeed the tree stays as it was, but for an upload that breaks off.
   */
  lemma SucceedsExactly(tree: Tree, user: User, op: Op, refused: bool)
    requires Permitted(user, op) && Locate(user, op.path).Some? && (op.Ren? ==> Locate(user, op.to).Some?)
    ensures var (reply, after) := Effect(tree, user, op, refused);
            var p := Locate(user, op.path).value;
            var parent := p != [] && p[..|p| - 1] in tree && tree[p[..|p| - 1]].Dir?;
            && (if reply.Sends? then op.Get? else reply.Done? || reply.Unavailable?)
            && (reply.Unavailable? && !(op.Put? && op.broken) ==> after == tree)
            && (op.Put? ==> (reply.Done? <==> !refused && !op.broken && parent && (p !in tree || tree[p].File?)))
            && (op.Del? ==> (reply.Done? <==> !refused && p in tree && tree[p].File?))
            && (op.Mkd? ==> (reply.Done? <==> !refused && parent && p !in tree))
            && (op.Rmd? ==> (reply.Done? <==> !refused && p in tree && tree[p].Dir? && forall q | q in tree && p <= q :: q == p))
            && (op.Ren? ==> (reply.Done? <==> !refused && CanMove(tree, p, Locate(user, op.to).value)))
            && (op.Get? ==> (reply.Sends? <==> !refused && p in tree && tree[p].File?) && !reply.Done?)
  {
  }

  // ---------- Operations together ----------

  lemma SameEverywhere(t: Tree, t': Tree)
    requires forall q :: SameAt(t, t', q)
    ensures t' == t
  {
    assert forall q :: q in t <==> q in t' by { forall q ensures q in t <==> q in t' { assert SameAt(t, t', q); } }
    forall q | q in t ensures t'[q] == t[q] { assert SameAt(t, t', q); }
  }

  /** Renaming an entry to itself succeeds and changes nothing. */
  lemma RenameToItself(tree: Tree, p: Names)
    requires p in tree
    ensures CanMove(tree, p, p) && Moved(tree, p, p) == tree
  {
    forall q ensures SameAt(tree, Moved(tree, p, p), q) {
      MovedAt(tree, p, p, q);
      if p <= q { Rebased(p, p, q); }
    }
    SameEverywhere(tree, Moved(tree, p, p));
  }

  lemma Rebased(from: Names, to: Names, q: Names)
    requires from <= q
    ensures to <= to + q[|from|..] && from + (to + q[|from|..])[|to|..] == q
  {
    assert (to + q[|from|..])[|to|..] == q[|from|..];
  }

  lemma RenameBackAt(tree: Tree, from: Names, to: Names, q: Names)
    requires CanMove(tree, from, to) && forall p | p in tree :: !(to <= p)
    ensures SameAt(tree, Moved(Moved(tree, from, to), to, from), q)
  {
    MovedAt(Moved(tree, from, to), to, from, q);
    if from <= q {
      Rebased(from, to, q);
      MovedAt(tree, from, to, to + q[|from|..]);
    } else {
      MovedAt(tree, from, to, q);
    }
  }

  /** Renaming to a free place and back restores the tree. */
  lemma RenameBack(tree: Tree, from: Names, to: Names)
    requires CanMove(tree, from, to) && forall p | p in tree :: !(to <= p)
    ensures Moved(Moved(tree, from, to), to, from) == tree
  {
    var back := Moved(Moved(tree, from, to), to, from);
    forall q ensures SameAt(tree, back, q) { RenameBackAt(tree, from, to, q); }
    SameEverywhere(tree, back);
  }

  /** The same by requests: both are answered with success. */
  lemma RenamedAndBack(tree: Tree, user: User, from: seq<Component>, to: seq<Component>)
    requires Permitted(user, Ren(from, to)) && Locate(user, from).Some? && Locate(user, to).Some?
    requires CanMove(tree, Locate(user, from).value, Locate(user, to).value) && InDir(tree, Locate(user, from).value)
    requires forall p | p in tree :: !(Locate(user, to).value <= p)
    ensures var (reply, moved) := Effect(tree, user, Ren(from, to), false);
            reply == Done && Effect(moved, user, Ren(to, from), false) == (Done, tree)
  {
    var a, b := Locate(user, from).value, Locate(user, to).value;
    RenameBack(tree, a, b);
    var moved := Moved(tree, a, b);
    var up := a[..|a| - 1];
    MovedAt(tree, a, b, a);
    MovedAt(tree, a, b, b);
    MovedAt(tree, a, b, up);
    assert b[|b|..] == [] && a + [] == a;
  }

  /** A rename takes away no directory but the one it moves, and puts a file only over a file. */
  lemma RenameReplacesFilesOnly(tree: Tree, from: Names, to: Names, q: Names)
    requires WellRooted(tree) && CanMove(tree, from, to) && from != to && q in tree && !(from <= q)
    ensures tree[q].Dir? ==> SameAt(tree, Moved(tree, from, to), q)
    ensures tree[q].File? && !SameAt(tree, Moved(tree, from, to), q) ==> q == to && IsFile(tree, from)
  {
    MovedAt(tree, from, to, q);
    if to <= q {
      TakenIsLeaf(tree, to, q);
    }
  }

  predicate Writable(tree: Tree, user: User, path: seq<Component>) {
    && MayWrite(user, Upload) && Locate(user, path).Some?
    && var full := Locate(user, path).value; InDir(tree, full) && (full in tree ==> tree[full].File?)
  }

  lemma PutWrites(tree: Tree, user: User, path: seq<Component>, start: nat, data: seq<byte>, broken: bool)
    requires Writable(tree, user, path)
    ensures var full := Locate(user, path).value;
            && Effect(tree, user, Put(path, start, data, broken), false)
               == (if broken then Unavailable else Done, Written(tree, full, start, data))
            && Writable(Written(tree, full, start, data), user, path) && IsFile(Written(tree, full, start, data), full)
  {
    var full := Locate(user, path).value;
    assert |full[..|full| - 1]| < |full|;
  }

  /** An upload continued where it broke off reads back as the whole. */
  lemma UploadContinues(tree: Tree, user: User, path: seq<Component>, a: seq<byte>, b: seq<byte>)
    requires Writable(tree, user, path) && user.download && a != []
    ensures var broken := Effect(tree, user, Put(path, 0, a, true), false).1;
            var (reply, whole) := Effect(broken, user, Put(path, |a|, b, false), false);
            reply == Done && Effect(whole, user, Get(path, 0), false).0 == Sends(a + b)
  {
    var full := Locate(user, path).value;
    PutWrites(tree, user, path, 0, a, true);
    var broken := Written(tree, full, 0, a);
    PutWrites(broken, user, path, |a|, b, false);
    WriteAtEnd([], a);
    WriteAtEnd(a, b);
    assert [] + a == a;
    assert Written(broken, full, |a|, b)[full] == File(a + b);
  }

  /** A new directory, or a new file, can be removed again, and nothing else has changed. */
  lemma MadeAndRemoved(tree: Tree, user: User, path: seq<Component>, data: seq<byte>)
    requires Writable(tree, user, path) && user.delete && forall q | q in tree :: !(Locate(user, path).value <= q)
    ensures var (made, there) := Effect(tree, user, Mkd(path), false);
            made == Done && IsEmptyDir(there, Locate(user, path).value) && Effect(there, user, Rmd(path), false) == (Done, tree)
    ensures var there := Effect(tree, user, Put(path, 0, data, false), false).1; Effect(there, user, Del(path), false) == (Done, tree)
  {
    var full := Locate(user, path).value;
    assert full !in tree;
    assert tree[full := Dir] - {full} == tree;
    PutWrites(tree, user, path, 0, data, false);
    assert Written(tree, full, 0, data) - {full} == tree;
  }

  lemma ReadBack(was: seq<byte>, start: nat, data: seq<byte>, from: nat, k: nat)
    requires data != [] && from + k < |WriteAt(was, start, data)|
    ensures WriteAt(was, start, data)[from..][k]
         == if start <= from + k < start + |data| then data[from + k - start] else if from + k < |was| then was[from + k] else 0
  {
    WriteAtPoint(was, start, data, from + k);
  }

  lemma PutThenGetReply(tree: Tree, user: User, path: seq<Component>, start: nat, data: seq<byte>, from: nat, was: seq<byte>)
    requires Writable(tree, user, path) && user.download
    requires was == if Locate(user, path).value in tree && start > 0 then tree[Locate(user, path).value].data else []
    ensures var after := Effect(tree, user, Put(path, start, data, false), false).1;
            && Effect(after, user, Get(path, from), false).0 == Sends(Tail(WriteAt(was, start, data), from))
            && (forall q | q != Locate(user, path).value :: SameAt(tree, after, q))
  {
    PutWrites(tree, user, path, start, data, false);
  }

  /** What was written is read back from wherever the reader starts; around it stands the old file, or zeros, and a write at 0 leaves no old file. */
  lemma PutThenGet(tree: Tree, user: User, path: seq<Component>, start: nat, data: seq<byte>, from: nat, was: seq<byte>, reply: Reply)
    requires Writable(tree, user, path) && user.download && data != []
    requires was == if Locate(user, path).value in tree && start > 0 then tree[Locate(user, path).value].data else []
    requires reply == Effect(Effect(tree, user, Put(path, start, data, false), false).1, user, Get(path, from), false).0
    ensures var size := if start + |data| > |was| then start + |data| else |was|;
            reply.Sends? && |reply.data| == if from <= size then size - from else 0
    ensures forall k | 0 <= k < |reply.data| ::
              reply.data[k] == if start <= from + k < start + |data| then data[from + k - start] else if from + k < |was| then was[from + k] else 0
    ensures forall q | q != Locate(user, path).value :: SameAt(tree, Effect(tree, user, Put(path, start, data, false), false).1, q)
  {
    PutThenGetReply(tree, user, path, start, data, from, was);
    forall k | 0 <= k < |reply.data|
      ensures reply.data[k] == if start <= from + k < start + |data| then data[from + k - start] else if from + k < |was| then was[from + k] else 0
    {
      ReadBack(was, start, data, from, k);
    }
  }

  // ---------- The tree stays a tree ----------

  /** Every entry but the top lies in a directory. */
  predicate WellRooted(tree: Tree) {
    forall p | p in tree && p != [] :: InDir(tree, p)
  }

  /** Whatever lies at or below a path, the path itself is an entry. */
  lemma TakenIsLeaf(tree: Tree, to: Names, q: Names)
    requires WellRooted(tree) && q in tree && to <= q
    ensures to in tree && (IsFile(tree, to) ==> q == to)
    decreases |q|
  {
    if q != to {
      assert InDir(tree, q);
      TakenIsLeaf(tree, to, q[..|q| - 1]);
    }
  }

  lemma FileHasNothingBelow(tree: Tree, p: Names, q: Names)
    requires WellRooted(tree) && IsFile(tree, p) && q in tree && p <= q
    ensures q == p
    decreases |q|
  {
    if q != p {
      assert InDir(tree, q);
      FileHasNothingBelow(tree, p, q[..|q| - 1]);
    }
  }

  lemma RemovalKeepsTree(tree: Tree, p: Names)
    requires WellRooted(tree) && p in tree && forall q | q in tree :: p <= q ==> q == p
    ensures WellRooted(tree - {p})
  {
    forall q | q in tree - {p} && q != [] ensures InDir(tree - {p}, q) {
      assert InDir(tree, q);
      assert q[..|q| - 1] <= q;
    }
  }

  lemma AddingKeepsTree(tree: Tree, p: Names, node: Node)
    requires WellRooted(tree) && InDir(tree, p) && (IsFile(tree, p) || p !in tree)
    ensures WellRooted(tree[p := node])
  {
    var after := tree[p := node];
    forall q | q in after && q != [] ensures InDir(after, q) {
      assert InDir(tree, q);
    }
  }

  lemma BelowParent(a: Names, p: Names)
    requires p != [] && a <= p[..|p| - 1]
    ensures a <= p
  {
    assert p[..|p| - 1] <= p;
  }

  lemma StayingKeepsEntry(tree: Tree, from: Names, to: Names, p: Names, up: Names)
    requires up in tree && tree[up].Dir? && p != [] && up == p[..|p| - 1]
    requires !(from <= up) && !(to <= up)
    ensures InDir(Moved(tree, from, to), p)
  {
    MovedAt(tree, from, to, up);
  }

  lemma RebasedParent(from: Names, to: Names, p: Names, q: Names, up: Names)
    requires to <= p && p != to && q == from + p[|to|..] && up == p[..|p| - 1]
    ensures q != [] && to <= up && q[..|q| - 1] == from + up[|to|..]
  {
    var rest := p[|to|..];
    assert up[|to|..] == rest[..|rest| - 1];
  }

  lemma ComingKeepsEntry(tree: Tree, from: Names, to: Names, p: Names, q: Names, up: Names)
    requires to <= p && p != to && q == from + p[|to|..] && up == p[..|p| - 1]
    requires q != [] && InDir(tree, q)
    ensures InDir(Moved(tree, from, to), p)
  {
    RebasedParent(from, to, p, q, up);
    MovedAt(tree, from, to, up);
  }

  lemma MoveKeepsEntry(tree: Tree, from: Names, to: Names, p: Names)
    requires WellRooted(tree) && CanMove(tree, from, to) && from != to && p != [] && p in Moved(tree, from, to)
    ensures InDir(Moved(tree, from, to), p)
  {
    var up := p[..|p| - 1];
    MovedAt(tree, from, to, p);
    if to <= p && p != to {
      var q := from + p[|to|..];
      assert InDir(tree, q);
      ComingKeepsEntry(tree, from, to, p, q, up);
    } else {
      assert InDir(tree, p);
      if from <= up { BelowParent(from, p); }
      if to <= up { BelowParent(to, p); }
      StayingKeepsEntry(tree, from, to, p, up);
    }
  }

  /** No operation leaves an entry without its directory. */
  lemma OperationKeepsTree(tree: Tree, user: User, op: Op, refused: bool)
    requires WellRooted(tree)
    ensures WellRooted(Effect(tree, user, op, refused).1)
  {
    var full := Locate(user, op.path);
    var after := Effect(tree, user, op, refused).1;
    if after != tree {
      match op
      case Put(_, start, data, _) => AddingKeepsTree(tree, full.value, Written(tree, full.value, start, data)[full.value]);
      case Mkd(_) => AddingKeepsTree(tree, full.value, Dir);
      case Del(_) =>
        forall q | q in tree && full.value <= q ensures q == full.value { FileHasNothingBelow(tree, full.value, q); }
        RemovalKeepsTree(tree, full.value);
      case Rmd(_) => RemovalKeepsTree(tree, full.value);
      case Ren(_, to) =>
        var there := Locate(user, to).value;
        if full.value == there { RenameToItself(tree, there); } else {
          forall p | p in after && p != [] ensures InDir(after, p) { MoveKeepsEntry(tree, full.value, there, p); }
        }
      case Get(_, _) =>
    }
  }

  /** Over any run of requests the tree stays a tree. */
  lemma {:induction false} RunKeepsTree(tree: Tree, requests: seq<Request>)
    requires WellRooted(tree)
    ensures WellRooted(RunAll(tree, requests))
    decreases |requests|
  {
    if requests == [] {
    } else {
      var r := requests[0];
      OperationKeepsTree(tree, r.user, r.op, r.refused);
      RunKeepsTree(Effect(tree, r.user, r.op, r.refused).1, requests[1..]);
    }
  }
}
