/**
The folder scope of a collection page, `apps/client-admin-console/src/composables/path-scope.ts`: the paged lookup of a
subtree, and the state machine that turns the folder in the route into the ids the page filters by.

A folder list is stable during one lookup. A change of route, realm or permission and the lookup it
starts are one step; the lookup's answer is another.
*/
module PathScope {
  import opened Basics

  const PATH_SCOPE_LIMIT := 50
  const PATH_SCOPE_PAGE_LIMIT := 10
  const PATH_SCOPE_ID_LIMIT := 300
  const PATH_TREE_LIMIT := PATH_SCOPE_PAGE_LIMIT * PATH_SCOPE_LIMIT

  datatype Folder = Folder(id: string, realmId: string, path: string)

  /** One page, and the total if the response carries one. */
  datatype Page = Page(data: seq<Folder>, total: Option<nat>)

  datatype Collected = Collected(data: seq<Folder>, truncated: bool)

  // ---------- the paged lookup ----------

  function Min(a: int, b: int): int {
    if a < b then a else b
  }

  /** The walk from a page on, with what the earlier pages held. */
  function Collect(load: nat -> Page, limit: int, page: nat, held: seq<Folder>): Collected
    requires page <= PATH_SCOPE_PAGE_LIMIT
    decreases PATH_SCOPE_PAGE_LIMIT - page
  {
    if page == PATH_SCOPE_PAGE_LIMIT then Collected(held, true)
    else
      var response := load(page * PATH_SCOPE_LIMIT);
      var data := held + response.data;
      var total := if response.total.Some? then response.total.value else |data|;
      if response.data == [] || |data| >= total then Collected(data, false)
      else if |data| >= limit then Collected(data, true)
      else Collect(load, limit, page + 1, data)
  }

  method CollectPathPages(load: nat -> Page, limit: int) returns (r: Collected, requests: nat)
    ensures r == Collect(load, limit, 0, [])
    ensures 1 <= requests <= PATH_SCOPE_PAGE_LIMIT
  {
    var data := [];
    requests := 0;
    for page := 0 to PATH_SCOPE_PAGE_LIMIT
      invariant requests == page
      invariant Collect(load, limit, 0, []) == Collect(load, limit, page, data)
    {
      var response := load(page * PATH_SCOPE_LIMIT);
      requests := requests + 1;
      data := data + response.data;
      var total := if response.total.Some? then response.total.value else |data|;
      if response.data == [] || |data| >= total {
        return Collected(data, false), requests;
      }
      if |data| >= limit {
        return Collected(data, true), requests;
      }
    }
    return Collected(data, true), requests;
  }

  /** A server over a list that does not change: full pages, and the total if it reports one. */
  function Served(listing: seq<Folder>, reportsTotal: bool): nat -> Page {
    (offset: nat) =>
      Page(listing[Min(offset, |listing|)..Min(offset + PATH_SCOPE_LIMIT, |listing|)],
           if reportsTotal then Some(|listing|) else None)
  }

  /** How many folders the walk gets through before it gives up: whole pages up to the budget, ten pages at most. */
  function Reach(limit: int): nat {
    if limit <= PATH_SCOPE_LIMIT then PATH_SCOPE_LIMIT
    else Min((limit + PATH_SCOPE_LIMIT - 1) / PATH_SCOPE_LIMIT * PATH_SCOPE_LIMIT, PATH_TREE_LIMIT)
  }

  /** One page continues what the pages before it held. */
  lemma PageContinues(listing: seq<Folder>, n: nat)
    ensures var page := Served(listing, true)(n);
      && listing[..Min(n, |listing|)] + page.data == listing[..Min(n + PATH_SCOPE_LIMIT, |listing|)]
      && page.total == Some(|listing|) && (page.data == [] ==> |listing| <= n)
  {
  }

  lemma PageStep(listing: seq<Folder>, limit: int, page: nat)
    requires page < PATH_SCOPE_PAGE_LIMIT
    ensures var n, next := page * PATH_SCOPE_LIMIT, (page + 1) * PATH_SCOPE_LIMIT;
      Collect(Served(listing, true), limit, page, listing[..Min(n, |listing|)]) ==
        if |listing| <= next then Collected(listing, false)
        else if next >= limit then Collected(listing[..next], true)
        else Collect(Served(listing, true), limit, page + 1, listing[..next])
  {
    PageContinues(listing, page * PATH_SCOPE_LIMIT);
    assert listing[..|listing|] == listing;
  }

  lemma ReachIsWholePages(limit: int, page: nat)
    requires page < PATH_SCOPE_PAGE_LIMIT && (page > 0 ==> page * PATH_SCOPE_LIMIT < limit)
    ensures (page + 1) * PATH_SCOPE_LIMIT <= Reach(limit)
    ensures limit <= (page + 1) * PATH_SCOPE_LIMIT || page + 1 == PATH_SCOPE_PAGE_LIMIT ==>
      Reach(limit) == (page + 1) * PATH_SCOPE_LIMIT
  {
  }

  ghost function Walked(listing: seq<Folder>, reach: nat): Collected {
    if |listing| <= reach then Collected(listing, false) else Collected(listing[..reach], true)
  }

  lemma {:induction false} WalkFrom(listing: seq<Folder>, limit: int, page: nat)
    requires page < PATH_SCOPE_PAGE_LIMIT
    requires page > 0 ==> page * PATH_SCOPE_LIMIT < |listing| && page * PATH_SCOPE_LIMIT < limit
    ensures Collect(Served(listing, true), limit, page, listing[..Min(page * PATH_SCOPE_LIMIT, |listing|)]) ==
      Walked(listing, Reach(limit))
    decreases PATH_SCOPE_PAGE_LIMIT - page
  {
    var next := (page + 1) * PATH_SCOPE_LIMIT;
    PageStep(listing, limit, page);
    ReachIsWholePages(limit, page);
    if |listing| > next && next < limit && page + 1 < PATH_SCOPE_PAGE_LIMIT {
      WalkFrom(listing, limit, page + 1);
    }
  }

  /** An untruncated walk returned every folder, and a walk is truncated exactly when the list outgrows its reach. */
  lemma WalkIsCompleteOrSaysSo(listing: seq<Folder>, limit: int)
    ensures Collect(Served(listing, true), limit, 0, []) == Walked(listing, Reach(limit))
    ensures Reach(PATH_SCOPE_ID_LIMIT) == PATH_SCOPE_ID_LIMIT && Reach(PATH_TREE_LIMIT) == PATH_TREE_LIMIT
  {
    WalkFrom(listing, limit, 0);
    assert listing[..0] == [];
  }

  /** That rests on the reported total: without one a single page passes for the whole list, however long it is. */
  lemma WithoutTotalOnePageIsAll(listing: seq<Folder>, limit: int)
    ensures var r := Collect(Served(listing, false), limit, 0, []);
      !r.truncated && (r.data == listing <==> |listing| <= PATH_SCOPE_LIMIT)
  {
    var response := Served(listing, false)(0);
    assert [] + response.data == listing[..Min(PATH_SCOPE_LIMIT, |listing|)];
    assert |listing| <= PATH_SCOPE_LIMIT ==> listing[..|listing|] == listing;
  }

  // ---------- the subtree ----------

  /** A folder of the realm, the named one or one below it. */
  predicate InSubtree(folder: Folder, realmId: string, path: string) {
    folder.realmId == realmId && (folder.path == path || path + "/" <= folder.path)
  }

  function Subtree(folders: seq<Folder>, realmId: string, path: string): seq<Folder> {
    if folders == [] then []
    else (if InSubtree(folders[0], realmId, path) then [folders[0]] else []) + Subtree(folders[1..], realmId, path)
  }

  function Ids(folders: seq<Folder>): (ids: seq<string>)
    ensures |ids| == |folders|
    ensures forall i | 0 <= i < |folders| :: ids[i] == folders[i].id
  {
    seq(|folders|, i requires 0 <= i < |folders| => folders[i].id)
  }

  /** A path as the names on it, split at the slash. */
  function Segments(path: string): (segments: seq<string>)
    ensures segments != []
  {
    if path == "" then [""]
    else
      var rest := Segments(path[1..]);
      if path[0] == '/' then [""] + rest else [[path[0]] + rest[0]] + rest[1..]
  }

  /** The folder is of the realm, and every name on the path stands on its own path, in the same place. */
  ghost predicate LiesBelow(folder: Folder, realmId: string, path: string) {
    folder.realmId == realmId && Segments(path) <= Segments(folder.path)
  }

  lemma ConsPrefix<T>(x: T, a: seq<T>, y: T, b: seq<T>)
    ensures [x] + a <= [y] + b <==> x == y && a <= b
  {
    var s, t := [x] + a, [y] + b;
    assert s[0] == x && t[0] == y && s[1..] == a && t[1..] == b;
    if |a| <= |b| {
      assert t[..|s|] == [y] + b[..|a|];
    }
  }

  lemma SegmentsPrefix(c: char, path: string, other: string)
    ensures Segments([c] + path) <= Segments([c] + other) <==> Segments(path) <= Segments(other)
  {
    var s, t := Segments(path), Segments(other);
    assert ([c] + path)[1..] == path && ([c] + other)[1..] == other;
    if c == '/' {
      ConsPrefix("", s, "", t);
    } else {
      ConsPrefix([c] + s[0], s[1..], [c] + t[0], t[1..]);
      ConsPrefix(s[0], s[1..], t[0], t[1..]);
      assert s == [s[0]] + s[1..] && t == [t[0]] + t[1..];
      assert ([c] + s[0])[1..] == s[0] && ([c] + t[0])[1..] == t[0];
    }
  }

  lemma FirstLetters(path: string, other: string)
    requires path != "" && (other == "" || other[0] != path[0])
    ensures Segments(path)[0] != Segments(other)[0] || |Segments(other)| < |Segments(path)|
  {
    assert Segments(path)[0] == "" <==> path[0] == '/';
    assert Segments(path)[0] != "" ==> Segments(path)[0][0] == path[0];
  }

  /** A text comparison decides it: the path itself, or what continues it behind a slash. */
  lemma {:induction false} SeparatorMarksDescendants(path: string, other: string)
    ensures other == path || path + "/" <= other <==> Segments(path) <= Segments(other)
  {
    if path == "" {
      assert "" + "/" == "/";
      assert Segments(path) <= Segments(other) <==> Segments(other)[0] == "";
      assert "/" <= other <==> other != "" && other[0] == '/';
    } else if other != "" && other[0] == path[0] {
      var c, p, o := path[0], path[1..], other[1..];
      assert path == [c] + p && other == [c] + o && path + "/" == [c] + (p + "/");
      SeparatorMarksDescendants(p, o);
      ConsPrefix(c, p + "/", c, o);
      SegmentsPrefix(c, p, o);
    } else {
      assert (path + "/")[0] == path[0];
      FirstLetters(path, other);
    }
  }

  ghost predicate InOrder(at: seq<nat>, low: nat, high: nat) {
    && (forall j | 0 <= j < |at| :: low <= at[j] < high)
    && (forall j, k | 0 <= j < k < |at| :: at[j] < at[k])
  }

  /** The places of the subtree in the list from a place on: every folder that lies below, in order, each place once. */
  ghost predicate PlacesFrom(folders: seq<Folder>, realmId: string, path: string, low: nat, at: seq<nat>) {
    && InOrder(at, low, |folders|)
    && forall i | low <= i < |folders| :: i in at <==> LiesBelow(folders[i], realmId, path)
  }

  ghost predicate Places(folders: seq<Folder>, realmId: string, path: string, at: seq<nat>) {
    PlacesFrom(folders, realmId, path, 0, at)
  }

  ghost predicate StandsAt(listing: seq<Folder>, folders: seq<Folder>, at: seq<nat>) {
    |listing| == |at| && forall j | 0 <= j < |at| :: at[j] < |folders| && listing[j] == folders[at[j]]
  }

  lemma {:induction false} PlacesOfSubtree(folders: seq<Folder>, realmId: string, path: string, low: nat)
    returns (at: seq<nat>)
    requires low <= |folders|
    ensures PlacesFrom(folders, realmId, path, low, at)
    decreases |folders| - low
  {
    if low == |folders| {
      at := [];
    } else {
      var rest := PlacesOfSubtree(folders, realmId, path, low + 1);
      at := (if LiesBelow(folders[low], realmId, path) then [low] else []) + rest;
    }
  }

  lemma FirstPlace(at: seq<nat>, low: nat, high: nat)
    requires InOrder(at, low, high)
    ensures low in at ==> at[0] == low && InOrder(at[1..], low + 1, high)
    ensures low in at ==> forall i | i > low :: i in at <==> i in at[1..]
    ensures low !in at ==> InOrder(at, low + 1, high)
  {
  }

  lemma StandsBehind(folders: seq<Folder>, first: nat, at: seq<nat>, listing: seq<Folder>)
    requires first < |folders| && StandsAt(listing, folders, at)
    ensures StandsAt([folders[first]] + listing, folders, [first] + at)
  {
  }

  lemma {:induction false} SubtreeStandsAt(folders: seq<Folder>, realmId: string, path: string, low: nat, at: seq<nat>)
    requires low <= |folders| && PlacesFrom(folders, realmId, path, low, at)
    ensures StandsAt(Subtree(folders[low..], realmId, path), folders, at)
    decreases |folders| - low
  {
    if low == |folders| {
      assert folders[low..] == [] && at == [];
    } else {
      assert folders[low..][0] == folders[low] && folders[low..][1..] == folders[low + 1..];
      SeparatorMarksDescendants(path, folders[low].path);
      FirstPlace(at, low, |folders|);
      var rest := if low in at then at[1..] else at;
      SubtreeStandsAt(folders, realmId, path, low + 1, rest);
      var below := Subtree(folders[low + 1..], realmId, path);
      assert Subtree(folders[low..], realmId, path) == (if low in at then [folders[low]] else []) + below;
      if low in at {
        StandsBehind(folders, low, rest, below);
        assert at == [low] + rest;
      } else {
        assert [] + below == below;
      }
    }
  }

  /** The listing of a folder is the folders below it, in the order of the list, each as often as the list has it. */
  lemma SubtreeIsWhatLiesBelow(folders: seq<Folder>, realmId: string, path: string) returns (at: seq<nat>)
    ensures Places(folders, realmId, path, at) && StandsAt(Subtree(folders, realmId, path), folders, at)
    ensures forall other | Places(folders, realmId, path, other) ::
      StandsAt(Subtree(folders, realmId, path), folders, other)
  {
    assert folders[0..] == folders;
    at := PlacesOfSubtree(folders, realmId, path, 0);
    forall other | Places(folders, realmId, path, other)
      ensures StandsAt(Subtree(folders, realmId, path), folders, other)
    {
      SubtreeStandsAt(folders, realmId, path, 0, other);
    }
  }

  /** The listing of a folder holds the folder itself exactly when the realm does, and what lies below it, no more. */
  lemma {:induction false} FolderIsInItsSubtree(folders: seq<Folder>, realmId: string, path: string)
    ensures (exists f :: f in Subtree(folders, realmId, path) && f.path == path) <==>
      exists f :: f in folders && f.realmId == realmId && f.path == path
    ensures forall f :: f in Subtree(folders, realmId, path) <==>
      f in folders && f.realmId == realmId && Segments(path) <= Segments(f.path)
  {
    if folders != [] {
      FolderIsInItsSubtree(folders[1..], realmId, path);
      SeparatorMarksDescendants(path, folders[0].path);
      assert forall f :: f in folders <==> f == folders[0] || f in folders[1..];
    }
  }

  /** A list sorted by path: nobody stands before one whose path his own continues. */
  ghost predicate SortedByPath(folders: seq<Folder>) {
    forall i, j | 0 <= i < j < |folders| :: !(folders[j].path < folders[i].path)
  }

  lemma {:induction false} SubtreeIsSorted(folders: seq<Folder>, realmId: string, path: string)
    requires SortedByPath(folders)
    ensures SortedByPath(Subtree(folders, realmId, path))
  {
    if folders != [] {
      var rest := Subtree(folders[1..], realmId, path);
      SubtreeIsSorted(folders[1..], realmId, path);
      forall f | f in rest ensures !(f.path < folders[0].path) {
        FolderIsInItsSubtree(folders[1..], realmId, path);
        var j :| 0 <= j < |folders[1..]| && folders[1..][j] == f;
        assert folders[j + 1] == f;
      }
    }
  }

  lemma BelowIsLonger(path: string, below: string)
    requires path + "/" <= below
    ensures path < below
  {
  }

  /** So a listing that holds the folder itself begins with it. */
  lemma FolderComesFirst(folders: seq<Folder>, realmId: string, path: string)
    requires SortedByPath(folders)
    ensures var listing := Subtree(folders, realmId, path);
      (exists f :: f in listing && f.path == path) <==> listing != [] && listing[0].path == path
  {
    var listing := Subtree(folders, realmId, path);
    SubtreeIsSorted(folders, realmId, path);
    FolderIsInItsSubtree(folders, realmId, path);
    if listing != [] {
      SeparatorMarksDescendants(path, listing[0].path);
      assert InSubtree(listing[0], realmId, path);
      forall j | 0 <= j < |listing| && listing[j].path == path ensures listing[0].path == path {
        assert j == 0 || !(listing[j].path < listing[0].path);
        if path + "/" <= listing[0].path { BelowIsLonger(path, listing[0].path); }
      }
      assert listing[0] in listing;
    }
  }

  // ---------- what the page asks for, and what it is answered ----------

  /** What the page gives: the folder in the route (canonical, never empty), the realm, the permission and its state. */
  datatype Situation = Situation(route: Option<string>, realmId: Option<string>, enabled: bool, settled: bool) {
    function Path(): Option<string> {
      if enabled then route else None
    }

    /** The folder and the realm a lookup started now asks for. */
    function Asks(): Option<Lookup> {
      if Path().Some? && realmId.Some? then Some(Lookup(Path().value, realmId.value)) else None
    }
  }

  datatype Lookup = Lookup(path: string, realmId: string)

  /** A reply carries the folders the server held, or nothing when the read failed. */
  type Answer = Option<seq<Folder>>

  datatype Event =
    | Change(next: Situation)
    | Retry
    | Settle(lookup: nat, answer: Answer)

  /** The course of events: the situation, what each lookup asked for in order, and the answer to the last. */
  datatype Course = Course(now: Situation, asks: seq<Option<Lookup>>, answer: Option<Answer>) {
    predicate Waits() {
      now.Asks().Some? && answer.None?
    }
  }

  function Ask(c: Course): Course {
    c.(asks := c.asks + [c.now.Asks()], answer := None)
  }

  function After(c: Course, e: Event): Course {
    match e
    case Change(next) =>
      var moved := c.(now := next);
      if next.Path() != c.now.Path() || next.realmId != c.now.realmId then Ask(moved) else moved
    case Retry => Ask(c)
    case Settle(lookup, answer) =>
      if lookup == |c.asks| && c.Waits() then c.(answer := Some(answer)) else c
  }

  function Run(start: Situation, script: seq<Event>): Course {
    if script == [] then Ask(Course(start, [], None))
    else After(Run(start, script[..|script| - 1]), script[|script| - 1])
  }

  // ---------- what it shows ----------

  /** A filter: absent, or the ids to list. */
  type Filter = Option<seq<string>>

  function BuildPathScopeFilters(path: Option<string>, paths: seq<Folder>, truncated: bool): Filter {
    if path.None? || truncated then None else Some(Ids(paths))
  }

  predicate Lacks(paths: seq<Folder>, path: string) {
    forall i | 0 <= i < |paths| :: paths[i].path != path
  }

  /** What a page is to list: nothing of its own until the newest lookup is answered, then the subtree it asked for. */
  ghost function Shown(c: Course): Filter {
    if c.answer.None? || c.now.Asks().None? || !c.now.settled then None
    else if c.answer.value.None? then Some([])
    else
      var listing := Subtree(c.answer.value.value, c.now.realmId.value, c.now.Path().value);
      if |listing| > PATH_SCOPE_ID_LIMIT then None else Some(Ids(listing))
  }

  /** What an answered lookup leaves: a failure and nothing, or the subtree as far as it was read. */
  ghost predicate Published(lookup: Lookup, answer: Answer, paths: seq<Folder>,
                            failed: bool, missing: bool, truncated: bool)
  {
    match answer
    case None => failed && !missing && !truncated && paths == []
    case Some(folders) =>
      var walked := Walked(Subtree(folders, lookup.realmId, lookup.path), PATH_SCOPE_ID_LIMIT);
      !failed && paths == walked.data && truncated == walked.truncated && (missing <==> Lacks(paths, lookup.path))
  }

  /** The notices over an answered lookup. */
  ghost predicate IsNoticed(c: Course, failed: bool, missing: bool)
    requires c.answer.Some?
  {
    c.now.Asks().Some? && exists paths, truncated ::
      Published(c.now.Asks().value, c.answer.value, paths, failed, missing, truncated)
  }

  /** The lookup itself: the subtree page by page, or nothing when it failed. */
  method ReadSubtree(lookup: Lookup, answer: Answer) returns (resolved: seq<Folder>, overflowed: bool)
    ensures Published(lookup, answer, resolved, answer.None?, answer.Some? && Lacks(resolved, lookup.path),
                      overflowed)
  {
    if answer.None? {
      return [], false;
    }
    var listing := Subtree(answer.value, lookup.realmId, lookup.path);
    var collected, _ := CollectPathPages(Served(listing, true), PATH_SCOPE_ID_LIMIT);
    WalkIsCompleteOrSaysSo(listing, PATH_SCOPE_ID_LIMIT);
    return collected.data, collected.truncated;
  }

  class PathScope {
    var now: Situation

    var generation: nat
    var resolving: bool
    var failed: bool
    var missing: bool
    var truncated: bool
    var paths: seq<Folder>

    /** The lookups in flight, by the generation that started them. */
    var lookups: map<nat, Lookup>
    ghost var course: Course

    predicate Pending()
      reads this
    {
      resolving || (!now.settled && now.route.Some?)
    }

    function Filters(): Filter
      reads this
    {
      if Pending() then None else BuildPathScopeFilters(now.Path(), paths, truncated)
    }

    /** A lookup in flight is one that was asked for; the newest is in flight while it waits for its answer. */
    ghost predicate Tracks()
      reads this
    {
      && course.now == now && |course.asks| == generation
      && forall g | g in lookups :: 1 <= g <= generation && course.asks[g - 1] == Some(lookups[g])
    }

    /** The fields say what the course of events says. */
    ghost predicate Valid()
      reads this
    {
      && Tracks() && generation > 0 && course.asks[generation - 1] == now.Asks()
      && (generation in lookups <==> course.Waits())
      && (resolving <==> now.Path().Some? && course.answer.None?)
      && (course.Waits() ==> !failed && !missing)
      && (now.Path().None? ==> !failed && !missing && !truncated && paths == [])
      && (course.answer.Some? ==>
            now.Asks().Some? && Published(now.Asks().value, course.answer.value, paths, failed, missing, truncated))
    }

    /** One read of the realm's folder list starts; the previous notices come down. */
    method Resolve()
      requires Tracks()
      modifies this`generation, this`resolving, this`failed, this`missing, this`truncated, this`paths, this`lookups,
               this`course
      ensures Valid() && course == Ask(old(course))
      ensures now.Path().Some? ==> paths == old(paths) && truncated == old(truncated)
      ensures now.Path().Some? && now.realmId.None? ==> failed == old(failed) && missing == old(missing)
    {
      generation := generation + 1;
      course := Ask(course);
      if now.Path().None? {
        resolving, failed, missing, truncated, paths := false, false, false, false, [];
        return;
      }
      if now.realmId.None? {
        resolving := true;
        return;
      }
      resolving, failed, missing := true, false, false;
      lookups := lookups[generation := Lookup(now.Path().value, now.realmId.value)];
    }

    constructor (start: Situation)
      ensures Valid() && course == Run(start, [])
    {
      now := start;
      generation, resolving, failed, missing, truncated, paths := 0, false, false, false, false, [];
      lookups, course := map[], Course(start, [], None);
      new;
      Resolve();
    }

    /** The route, the realm or the permission changes; the lookup reruns exactly when folder or realm did. */
    method Change(next: Situation)
      requires Valid()
      modifies this
      ensures Valid() && course == After(old(course), Event.Change(next))
      ensures |course.asks| == |old(course).asks| ==>
        paths == old(paths) && failed == old(failed) && missing == old(missing) && truncated == old(truncated)
    {
      var before := now;
      now, course := next, course.(now := next);
      if now.Path() != before.Path() || now.realmId != before.realmId {
        Resolve();
      }
    }

    method Retry()
      requires Valid()
      modifies this
      ensures Valid() && course == After(old(course), Event.Retry)
    {
      Resolve();
    }

    /** A lookup answers from the folders the server holds, or fails; an older one than the newest changes nothing. */
    method Settle(current: nat, answer: Answer)
      requires Valid() && current in lookups
      modifies this
      ensures Valid() && course == After(old(course), Event.Settle(current, answer))
      ensures lookups == old(lookups) - {current}
      ensures current != |old(course).asks| ==>
        && now == old(now) && resolving == old(resolving) && paths == old(paths)
        && failed == old(failed) && missing == old(missing) && truncated == old(truncated)
    {
      var lookup := lookups[current];
      var resolved, overflowed := ReadSubtree(lookup, answer);
      lookups := lookups - {current};
      if current != generation {
        return;
      }
      resolving := false;
      Publish(lookup, answer, resolved, overflowed);
      course := course.(answer := Some(answer));
    }

    /** The refs a settled lookup writes. */
    method Publish(lookup: Lookup, answer: Answer, resolved: seq<Folder>, overflowed: bool)
      requires Published(lookup, answer, resolved, answer.None?, answer.Some? && Lacks(resolved, lookup.path),
                         overflowed)
      modifies this`failed, this`missing, this`truncated, this`paths
      ensures Published(lookup, answer, paths, failed, missing, truncated)
    {
      failed := answer.None?;
      missing := !failed && Lacks(resolved, lookup.path);
      truncated := overflowed;
      paths := resolved;
    }

    /** The published filter is what the course of events asks for, and an empty one carries a notice. */
    lemma FiltersAreShown()
      requires Valid()
      ensures Filters() == Shown(course)
      ensures Filters() == Some([]) ==> failed || missing
    {
      if course.answer.Some? && course.answer.value.Some? {
        var lookup := now.Asks().value;
        var listing := Subtree(course.answer.value.value, lookup.realmId, lookup.path);
        assert |Ids(listing)| == |listing|;
      }
    }
  }

  // ---------- what that means ----------

  /** The reply at `k` is the first to the lookup asked for last, which is for the folder and the realm of the end. */
  ghost predicate AnswersTheLast(start: Situation, script: seq<Event>, k: nat)
    requires k < |script|
  {
    var before, end := Run(start, script[..k]), Run(start, script);
    var now := end.now;
    && script[k].Settle? && 0 < script[k].lookup == |end.asks| == |before.asks| && before.answer.None?
    && now.enabled && now.route.Some? && now.realmId.Some?
    && end.asks[|end.asks| - 1] == Some(Lookup(now.route.value, now.realmId.value))
  }

  /** After any course of events the last lookup is for the folder and the realm that hold, if both do. */
  lemma {:induction false} LastAskIsForNow(start: Situation, script: seq<Event>)
    ensures var c := Run(start, script);
      && c.asks != [] && (c.answer.Some? ==> c.asks[|c.asks| - 1].Some?)
      && c.asks[|c.asks| - 1] ==
           if c.now.enabled && c.now.route.Some? && c.now.realmId.Some?
           then Some(Lookup(c.now.route.value, c.now.realmId.value)) else None
  {
    if script != [] {
      LastAskIsForNow(start, script[..|script| - 1]);
    }
  }

  lemma {:induction false} AsksGrow(start: Situation, script: seq<Event>, k: nat)
    requires k <= |script|
    ensures Run(start, script[..k]).asks <= Run(start, script).asks
  {
    if k == |script| {
      assert script[..k] == script;
    } else {
      var init := script[..|script| - 1];
      assert init[..k] == script[..k];
      AsksGrow(start, init, k);
    }
  }

  /** An answer that is held was given by one step of the script, with no lookup started since. */
  lemma {:induction false} AnswerWasGiven(start: Situation, script: seq<Event>) returns (k: nat)
    requires Run(start, script).answer.Some?
    ensures k < |script| && AnswersTheLast(start, script, k)
    ensures Run(start, script).answer == Some(script[k].answer)
  {
    var n := |script| - 1;
    var init, e := script[..n], script[n];
    var c := Run(start, init);
    LastAskIsForNow(start, init);
    LastAskIsForNow(start, script);
    if e.Settle? && e.lookup == |c.asks| && c.Waits() {
      k := n;
    } else {
      k := AnswerWasGiven(start, init);
      assert init[..k] == script[..k];
    }
  }

  /** And the first reply to the last lookup is the answer that is held. */
  lemma {:induction false} FirstReplyStays(start: Situation, script: seq<Event>, k: nat)
    requires k < |script| && AnswersTheLast(start, script, k)
    ensures Run(start, script).answer == Some(script[k].answer)
  {
    var n := |script| - 1;
    var init := script[..n];
    LastAskIsForNow(start, init);
    AsksGrow(start, script, n);
    if k < n {
      assert init[..k] == script[..k];
      AsksGrow(start, init, k);
      FirstReplyStays(start, init, k);
    }
  }

  /** What a page lists for a reply: nothing for a failure, else the ids of what lies below, as many as can travel. */
  ghost predicate Lists(now: Situation, answer: Answer, ids: seq<string>)
    requires now.route.Some? && now.realmId.Some?
  {
    match answer
    case None => ids == []
    case Some(folders) =>
      |ids| <= 300 && exists at ::
        Places(folders, now.realmId.value, now.route.value, at) && |at| == |ids| &&
        forall j | 0 <= j < |at| :: ids[j] == folders[at[j]].id
  }

  lemma ShownLists(c: Course, ids: seq<string>)
    requires c.now.enabled && c.now.route.Some? && c.now.realmId.Some? && c.now.settled && c.answer.Some?
    ensures Shown(c) == Some(ids) <==> Lists(c.now, c.answer.value, ids)
  {
    if c.answer.value.Some? {
      var folders, path := c.answer.value.value, c.now.route.value;
      var at := SubtreeIsWhatLiesBelow(folders, c.now.realmId.value, path);
      var listing := Subtree(folders, c.now.realmId.value, path);
      assert Shown(c) == Some(ids) <==> |listing| <= 300 && ids == Ids(listing);
      if |listing| <= 300 && ids == Ids(listing) {
        assert forall j | 0 <= j < |at| :: ids[j] == folders[at[j]].id;
      }
    }
  }

  ghost predicate MayList(start: Situation, script: seq<Event>, ids: seq<string>) {
    var now := Run(start, script).now;
    now.settled && exists k ::
      0 <= k < |script| && AnswersTheLast(start, script, k) && Lists(now, script[k].answer, ids)
  }

  /**
   The filter a page may use after any course of events: ids exactly when the permission is settled and the last
   lookup was for the current folder and realm and has been replied to. They are none if that lookup failed, and
   else those of the folders at or below the route by their names, in order, if no more than can travel.
   */
  lemma FilterIsHonest(start: Situation, script: seq<Event>, ids: seq<string>)
    ensures Shown(Run(start, script)) == Some(ids) <==> MayList(start, script, ids)
  {
    var c := Run(start, script);
    LastAskIsForNow(start, script);
    if c.answer.Some? {
      var k := AnswerWasGiven(start, script);
      if c.now.settled { ShownLists(c, ids); }
    }
    forall k | 0 <= k < |script| && AnswersTheLast(start, script, k) ensures c.answer == Some(script[k].answer) {
      FirstReplyStays(start, script, k);
    }
  }

  /**
   A notice that the folder is gone is raised exactly when no folder of the realm has its path: also for a walk
   that was cut short, as the list is sorted by path.
   */
  lemma MissingMeansGone(scope: PathScope)
    requires scope.Valid() && scope.course.answer.Some? && scope.course.answer.value.Some?
    requires scope.truncated ==> SortedByPath(scope.course.answer.value.value)
    ensures scope.missing <==> !exists f ::
      f in scope.course.answer.value.value && scope.now.realmId == Some(f.realmId) && scope.now.Path() == Some(f.path)
  {
    var folders, lookup := scope.course.answer.value.value, scope.now.Asks().value;
    FolderIsInItsSubtree(folders, lookup.realmId, lookup.path);
    var listing := Subtree(folders, lookup.realmId, lookup.path);
    if scope.truncated {
      FolderComesFirst(folders, lookup.realmId, lookup.path);
      assert scope.paths[0] == listing[0];
      assert scope.missing ==> listing[0].path != lookup.path;
      forall i | 0 <= i < |scope.paths| && scope.paths[i].path == lookup.path ensures listing[i] in listing {
      }
    } else {
      assert Lacks(listing, lookup.path) <==> !exists f :: f in listing && f.path == lookup.path;
    }
  }

  // ---------- every interleaving ----------

  /** Any order of changes, retries and replies; a reply to no lookup in flight is skipped. */
  method Interleave(start: Situation, script: seq<Event>) returns (filter: Filter, failed: bool, missing: bool)
    ensures filter == Shown(Run(start, script))
    ensures forall ids :: filter == Some(ids) <==> MayList(start, script, ids)
    ensures filter == Some([]) ==> failed || missing
    ensures var c := Run(start, script); c.answer.Some? ==> IsNoticed(c, failed, missing)
  {
    var scope := new PathScope(start);
    assert script[..0] == [];
    for k := 0 to |script|
      invariant scope.Valid() && scope.course == Run(start, script[..k])
    {
      assert script[..k + 1][..k] == script[..k];
      match script[k] {
        case Change(next) => scope.Change(next);
        case Retry => scope.Retry();
        case Settle(g, answer) =>
          if g in scope.lookups { scope.Settle(g, answer); }
      }
    }
    assert script[..|script|] == script;
    scope.FiltersAreShown();
    forall ids ensures scope.Filters() == Some(ids) <==> MayList(start, script, ids) {
      FilterIsHonest(start, script, ids);
    }
    return scope.Filters(), scope.failed, scope.missing;
  }
}
