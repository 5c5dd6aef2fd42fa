/** The string functions the NAS driver builds its paths with: Go's strings.Split, strings.Join,
    filepath.Clean, filepath.Join and filepath.Base, on rooted slash-separated paths. */
module Paths {
  import Strings

  /** strings.Split(s, "/") */
  function Split(s: string): seq<string> {
    Strings.Split(s, '/')
  }

  predicate SlashFree(s: string) {
    '/' !in s
  }

  /** A component that names a directory entry. */
  predicate Plain(s: string) {
    SlashFree(s) && s != "" && s != "." && s != ".."
  }

  predicate AllPlain(parts: seq<string>) {
    forall i | 0 <= i < |parts| :: Plain(parts[i])
  }

  predicate Rooted(p: string) {
    |p| > 0 && p[0] == '/'
  }

  // ----- filepath.Clean -----

  /** Follows the components from directory `at`: empty and "." components stay, ".." goes up. */
  function Follow(at: seq<string>, parts: seq<string>): seq<string> {
    if parts == [] then at else
      var d := Follow(at, parts[..|parts| - 1]);
      var last := parts[|parts| - 1];
      if last == "" || last == "." then d
      else if last == ".." then (if d == [] then [] else d[..|d| - 1])
      else d + [last]
  }

  /** The directory a rooted path denotes, as its components. */
  function Components(p: string): seq<string> {
    Follow([], Split(p))
  }

  /** The path of a directory. */
  function PathOf(dir: seq<string>): (p: string)
    ensures Rooted(p)
  {
    "/" + Strings.Join(dir, '/')
  }

  /** filepath.Clean on a rooted path. */
  function Clean(p: string): string
    requires Rooted(p)
  {
    PathOf(Components(p))
  }

  /** filepath.Join of a rooted path and another element. */
  function Join(a: string, b: string): (p: string)
    requires Rooted(a)
    ensures Rooted(p)
  {
    Clean(a + "/" + b)
  }

  lemma {:induction false} FollowConcat(at: seq<string>, a: seq<string>, b: seq<string>)
    ensures Follow(at, a + b) == Follow(Follow(at, a), b)
  {
    if b == [] {
      assert a + b == a;
    } else {
      FollowConcat(at, a, b[..|b| - 1]);
      assert (a + b)[..|a + b| - 1] == a + b[..|b| - 1];
    }
  }

  lemma {:induction false} FollowPlain(at: seq<string>, parts: seq<string>)
    requires AllPlain(parts)
    ensures Follow(at, parts) == at + parts
  {
    if parts != [] {
      FollowPlain(at, parts[..|parts| - 1]);
      assert Plain(parts[|parts| - 1]);
      assert parts == parts[..|parts| - 1] + [parts[|parts| - 1]];
    }
  }

  lemma {:induction false} FollowIsPlain(at: seq<string>, parts: seq<string>)
    requires AllPlain(at) && Strings.AllFree(parts, '/')
    ensures AllPlain(Follow(at, parts))
  {
    if parts != [] {
      FollowIsPlain(at, parts[..|parts| - 1]);
    }
  }

  lemma ComponentsPlain(p: string)
    ensures AllPlain(Components(p))
  {
    FollowIsPlain([], Split(p));
  }

  lemma FollowOne(at: seq<string>, last: string)
    ensures Follow(at, [last]) == if last == "" || last == "." then at
                                  else if last == ".." then (if at == [] then [] else at[..|at| - 1])
                                  else at + [last]
  {
    assert [last][..0] == [];
    assert Follow(at, []) == at;
  }

  /** A directory's path denotes the directory. */
  lemma PathOfComponents(dir: seq<string>)
    requires AllPlain(dir)
    ensures Components(PathOf(dir)) == dir
    ensures dir != [] ==> Split(PathOf(dir)) == [""] + dir
  {
    Strings.SplitFree("", '/');
    Strings.SplitConcat("", Strings.Join(dir, '/'), '/');
    assert "" + "/" + Strings.Join(dir, '/') == PathOf(dir);
    FollowOne([], "");
    if dir == [] {
      FollowConcat([], [""], [""]);
    } else {
      Strings.SplitJoin(dir, '/');
      FollowConcat([], [""], dir);
      FollowPlain([], dir);
    }
  }

  /** Cleaning does not change what a path denotes, and is idempotent. */
  lemma CleanDenotes(p: string)
    requires Rooted(p)
    ensures Components(Clean(p)) == Components(p)
    ensures Clean(Clean(p)) == Clean(p)
  {
    ComponentsPlain(p);
    PathOfComponents(Components(p));
  }

  /** A joined path denotes what its second element leads to from its first. */
  lemma JoinDenotes(a: string, b: string)
    requires Rooted(a)
    ensures Components(Join(a, b)) == Follow(Components(a), Split(b))
    ensures Join(a, b) == PathOf(Follow(Components(a), Split(b)))
  {
    CleanDenotes(a + "/" + b);
    Strings.SplitConcat(a, b, '/');
    FollowConcat([], Split(a), Split(b));
  }

  lemma JoinPlain(a: string, name: string)
    requires Rooted(a) && Plain(name)
    ensures Components(Join(a, name)) == Components(a) + [name]
    ensures Join(a, name) == PathOf(Components(a) + [name])
  {
    JoinDenotes(a, name);
    Strings.SplitFree(name, '/');
    FollowPlain(Components(a), [name]);
  }

  /** Joining one component: a name goes down, ".." goes up and stays at the root, "." and nothing stay. */
  lemma JoinSteps(dir: seq<string>, name: string)
    requires AllPlain(dir) && Plain(name)
    ensures Join(PathOf(dir), name) == PathOf(dir + [name])
    ensures Join(PathOf(dir + [name]), "..") == PathOf(dir) && Join("/", "..") == "/"
    ensures Join(PathOf(dir), ".") == PathOf(dir) && Join(PathOf(dir), "") == PathOf(dir)
  {
    hide Components, Join, PathOf;
    PathOfComponents(dir);
    PathOfComponents(dir + [name]);
    PathOfComponents([]);
    JoinPlain(PathOf(dir), name);
    RootPath();
    forall p: string, last: string | Rooted(p) && last in {"", ".", ".."}
      ensures Join(p, last) == PathOf(Follow(Components(p), [last]))
    {
      JoinDenotes(p, last);
      Strings.SplitFree(last, '/');
    }
    FollowOne(dir, "");
    FollowOne(dir, ".");
    FollowOne(dir + [name], "..");
    FollowOne([], "..");
    assert (dir + [name])[..|dir|] == dir;
  }

  lemma RootPath()
    ensures PathOf([]) == "/"
  {
  }

  // ----- Paths that climb -----

  /** Following `parts` never goes above where it starts. */
  predicate NeverClimbs(parts: seq<string>) {
    parts == [] ||
    (NeverClimbs(parts[..|parts| - 1]) && (parts[|parts| - 1] == ".." ==> Follow([], parts[..|parts| - 1]) != []))
  }

  lemma {:induction false} FollowStays(at: seq<string>, parts: seq<string>)
    requires NeverClimbs(parts)
    ensures Follow(at, parts) == at + Follow([], parts)
  {
    if parts != [] {
      FollowStays(at, parts[..|parts| - 1]);
    }
  }

  /** How far `parts` climbs above its start, and what it then descends into. */
  function Climb(parts: seq<string>): (nat, seq<string>) {
    if parts == [] then (0, []) else
      var (ups, tail) := Climb(parts[..|parts| - 1]);
      var last := parts[|parts| - 1];
      if last == "" || last == "." then (ups, tail)
      else if last == ".." then (if tail == [] then (ups + 1, []) else (ups, tail[..|tail| - 1]))
      else (ups, tail + [last])
  }

  function Ups(parts: seq<string>): nat {
    Climb(parts).0
  }

  function Tail(parts: seq<string>): seq<string> {
    Climb(parts).1
  }

  /** Following `parts` takes so many components off the end, at most all, and puts the tail there. */
  lemma {:induction false} FollowClimbs(at: seq<string>, parts: seq<string>)
    ensures Follow(at, parts) == at[..if Ups(parts) <= |at| then |at| - Ups(parts) else 0] + Tail(parts)
  {
    if parts != [] {
      FollowClimbs(at, parts[..|parts| - 1]);
    }
  }

  lemma {:induction false} NeverClimbsIff(parts: seq<string>)
    ensures NeverClimbs(parts) <==> Ups(parts) == 0
  {
    if parts != [] {
      NeverClimbsIff(parts[..|parts| - 1]);
      FollowClimbs([], parts[..|parts| - 1]);
    }
  }

  /** A path that climbs `ups` levels from `at` and from `root` leads to the same place below both only if
      it climbs one level and comes back through equal names. */
  lemma ClimbedBack(at: seq<string>, root: seq<string>, ups: nat, tail: seq<string>)
    requires |at| > 1 && |root| <= 1 && ups > 0
    ensures var dest := at[..if ups <= |at| then |at| - ups else 0] + tail;
      at <= dest && root + dest[|at|..] == tail <==>
        ups == 1 && tail != [] && tail[0] == at[|at| - 1] && root == [tail[0]]
  {
    var k := if ups <= |at| then |at| - ups else 0;
    var dest := at[..k] + tail;
    if ups == 1 && tail != [] && tail[0] == at[|at| - 1] && root == [tail[0]] {
      assert dest == at + tail[1..];
      assert root + tail[1..] == tail;
    }
    if at <= dest && root + dest[|at|..] == tail {
      assert |root| + |dest| - |at| == |tail|;
      assert k == |at| - 1 && tail != [];
      assert dest[|at| - 1] == tail[0] && dest[..|at|] == at;
      assert (root + dest[|at|..])[0] == root[0];
    }
  }

  lemma {:induction false} NoDotsNeverClimb(parts: seq<string>)
    requires forall i | 0 <= i < |parts| :: parts[i] != ".."
    ensures NeverClimbs(parts)
  {
    if parts != [] {
      NoDotsNeverClimb(parts[..|parts| - 1]);
    }
  }

  // ----- Slashes -----

  lemma SplitTwo(a: string, b: string)
    requires SlashFree(a) && SlashFree(b)
    ensures Split(a + ['/'] + b) == [a, b]
  {
    Strings.SplitFree(a, '/');
    Strings.SplitFree(b, '/');
    Strings.SplitConcat(a, b, '/');
  }

  lemma SlashInFront(at: seq<string>, s: string)
    ensures Follow(at, Split("" + ['/'] + s)) == Follow(at, Split(s))
  {
    Strings.SplitFree("", '/');
    Strings.SplitConcat("", s, '/');
    FollowConcat(at, [""], Split(s));
    FollowOne(at, "");
  }

  lemma SlashAtEnd(at: seq<string>, s: string)
    ensures Follow(at, Split(s + ['/'] + "")) == Follow(at, Split(s))
  {
    Strings.SplitFree("", '/');
    Strings.SplitConcat(s, "", '/');
    FollowConcat(at, Split(s), [""]);
    FollowOne(Follow(at, Split(s)), "");
  }

  // ----- filepath.Base and strings.LastIndex -----

  /** strings.LastIndex(s, "/") */
  function LastSlash(s: string): (i: int)
    ensures -1 <= i < |s|
    ensures i >= 0 ==> s[i] == '/'
    ensures forall k | i < k < |s| :: s[k] != '/'
  {
    if s == "" then -1
    else if s[|s| - 1] == '/' then |s| - 1
    else LastSlash(s[..|s| - 1])
  }

  function StripSlashes(s: string): string {
    if s != "" && s[|s| - 1] == '/' then StripSlashes(s[..|s| - 1]) else s
  }

  function Base(p: string): string {
    if p == "" then "." else
      var q := StripSlashes(p);
      if q == "" then "/" else q[LastSlash(q) + 1..]
  }

  /** The base ignores slashes at the end. */
  lemma BaseIgnoresSlashes(p: string)
    ensures Base(p + "/") == if p == "" then "/" else Base(p)
    ensures Base("") == "."
  {
    var q := p + "/";
    assert q[|q| - 1] == '/' && q[..|q| - 1] == p;
    assert StripSlashes(q) == StripSlashes(p);
  }

  /** strings.TrimSuffix(s, "/") */
  function TrimSlash(s: string): string {
    if s != "" && s[|s| - 1] == '/' then s[..|s| - 1] else s
  }

  /** The last component of a clean path, and the path before it. */
  lemma LastComponent(dir: seq<string>, name: string)
    requires AllPlain(dir) && Plain(name)
    ensures var p := PathOf(dir + [name]);
      && TrimSlash(p) == p && Base(p) == name
      && LastSlash(p) == |p| - |name| - 1 && LastSlash(p) >= 0
      && p[..LastSlash(p)] == (if dir == [] then "" else PathOf(dir))
  {
    hide Base, TrimSlash, LastSlash, AllPlain, StripSlashes;
    Strings.JoinSnoc(dir, name, '/');
    var head := if dir == [] then "" else PathOf(dir);
    assert PathOf(dir + [name]) == head + "/" + name;
    TailAfterSlash(head, name);
  }

  lemma TailAfterSlash(head: string, name: string)
    requires Plain(name)
    ensures var p := head + "/" + name;
      TrimSlash(p) == p && Base(p) == name && LastSlash(p) == |head| && p[..|head|] == head
  {
    var p := head + "/" + name;
    assert p[|p| - 1] == name[|name| - 1] && name[|name| - 1] in name;
    assert p[|head| + 1..] == name && p[|head|] == '/' && p[..|head|] == head;
    forall k | |head| < k < |p| ensures p[k] != '/' {
      assert p[k] == name[k - |head| - 1] && p[k] in name;
    }
  }
}
