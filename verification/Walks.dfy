/**
  The way a batch goes through the older versions: which versions are opened and which catalogues are listed, in
  which order, which of those stops fail, and what that leaves unread.
*/
module Walks {
  import opened Basics
  import opened Batch
  import opened StoreState
  import opened Insertion
  import opened Deletion
  import opened Resolution
  import opened Retry

  datatype Place = Version(file: File) | Catalogue(cls: nat)

  /** One stop of a batch, and how many pending keys the version there held. */
  datatype Stop = Stop(place: Place, taken: nat)

  /** A version that does not open, or throws once that many keys are gone from it; a catalogue that cannot be listed. */
  predicate Fails(faults: Faults, s: Stop) {
    match s.place
    case Version(f) => f in faults.refuses || (f in faults.throws && 0 < s.taken == faults.throws[f])
    case Catalogue(c) => c in faults.unlistable
  }

  /** No stop failed. */
  ghost predicate Whole(trail: seq<Stop>, faults: Faults) {
    forall i :: 0 <= i < |trail| ==> !Fails(faults, trail[i])
  }

  /** No catalogue among the stops failed. */
  ghost predicate Heard(trail: seq<Stop>, faults: Faults) {
    forall i :: 0 <= i < |trail| && trail[i].place.Catalogue? ==> !Fails(faults, trail[i])
  }

  /** The versions that were read to the end. */
  ghost function ReadBy(trail: seq<Stop>, faults: Faults): (r: set<File>)
    ensures forall f :: f in r <==> exists i :: 0 <= i < |trail| && trail[i].place == Version(f) && !Fails(faults, trail[i])
  {
    set i | 0 <= i < |trail| && trail[i].place.Version? && !Fails(faults, trail[i]) :: trail[i].place.file
  }

  function Places(trail: seq<Stop>): (r: seq<Place>)
    ensures |r| == |trail| && forall i :: 0 <= i < |trail| ==> r[i] == trail[i].place
  {
    seq(|trail|, i requires 0 <= i < |trail| => trail[i].place)
  }

  /** The version each key was taken from, stop by stop. */
  function Spread(trail: seq<Stop>): seq<File> {
    if trail == [] then []
    else Spread(trail[..|trail| - 1])
         + (if trail[|trail| - 1].place.Version? then Repeated(trail[|trail| - 1].place.file, trail[|trail| - 1].taken) else [])
  }

  lemma PlacesOn(trail: seq<Stop>, todo: seq<Place>, s: Stop)
    requires todo != [] && todo[0] == s.place
    ensures Places(trail + [s]) + todo[1..] == Places(trail) + todo
  {
  }

  /** No version among these stores the key. */
  ghost predicate Unseen(k: Key, files: Files, seen: set<File>) {
    forall f :: f in seen ==> !Stores(files, f, k)
  }

  ghost predicate Wanted(requests: seq<Request>, files: Files, seen: set<File>) {
    exists w: nat :: w < |requests| && Unseen(requests[w].key, files, seen)
  }

  /** A key was still pending at the last stop, and so at every stop: nothing that had been read stored it. */
  ghost predicate Needed(requests: seq<Request>, files: Files, base: set<File>, trail: seq<Stop>, faults: Faults) {
    trail != [] ==> Wanted(requests, files, base + ReadBy(trail[..|trail| - 1], faults))
  }

  /** Nothing comes of a version that does not open. */
  ghost predicate Honest(trail: seq<Stop>, faults: Faults) {
    forall i :: 0 <= i < |trail| && trail[i].place.Version? && trail[i].place.file in faults.refuses ==> trail[i].taken == 0
  }

  lemma NeededOn(requests: seq<Request>, pending: seq<nat>, files: Files, base: set<File>, trail: seq<Stop>, s: Stop, faults: Faults)
    requires Clear(requests, pending, files, base + ReadBy(trail, faults)) && InBatch(requests, pending) && pending != []
    ensures Needed(requests, files, base, trail + [s], faults)
  {
    assert (trail + [s])[..|trail + [s]| - 1] == trail;
    assert Unseen(requests[pending[0]].key, files, base + ReadBy(trail, faults));
  }

  lemma TrailOn(trail: seq<Stop>, s: Stop, faults: Faults)
    ensures Whole(trail + [s], faults) <==> Whole(trail, faults) && !Fails(faults, s)
    ensures Heard(trail + [s], faults) <==> Heard(trail, faults) && !(s.place.Catalogue? && Fails(faults, s))
    ensures ReadBy(trail + [s], faults) ==
            ReadBy(trail, faults) + if s.place.Version? && !Fails(faults, s) then {s.place.file} else {}
    ensures Places(trail + [s]) == Places(trail) + [s.place]
    ensures Spread(trail + [s]) == Spread(trail) + if s.place.Version? then Repeated(s.place.file, s.taken) else []
  {
    var more := trail + [s];
    assert more[..|trail|] == trail && more[|trail|] == s;
    assert forall i :: 0 <= i < |trail| ==> more[i] == trail[i];
    forall f ensures f in ReadBy(more, faults) <==> f in ReadBy(trail, faults) || (s.place == Version(f) && !Fails(faults, s)) {
      if f in ReadBy(trail, faults) {
        var i :| 0 <= i < |trail| && trail[i].place == Version(f) && !Fails(faults, trail[i]);
        assert more[i].place == Version(f) && !Fails(faults, more[i]);
      }
      if s.place == Version(f) && !Fails(faults, s) { assert more[|trail|].place == Version(f); }
    }
  }

  lemma ReadOn(base: set<File>, trail: seq<Stop>, f: File, n: nat, faults: Faults)
    ensures base + ReadBy(trail + [Stop(Version(f), n)], faults) ==
            if Fails(faults, Stop(Version(f), n)) then base + ReadBy(trail, faults) else base + ReadBy(trail, faults) + {f}
  {
    TrailOn(trail, Stop(Version(f), n), faults);
  }

  // ------------------------------------------------------------------
  // The way through the versions
  // ------------------------------------------------------------------

  function Versions(fs: seq<File>): (r: seq<Place>)
    ensures |r| == |fs| && forall i :: 0 <= i < |fs| ==> r[i] == Version(fs[i])
  {
    seq(|fs|, i requires 0 <= i < |fs| => Version(fs[i]))
  }

  /** The versions of class `c` below position `j` of its catalogue, the nearest first, without what the cache held. */
  function Down(versions: seq<nat>, c: nat, j: nat, cached: seq<File>): seq<Place>
    requires j <= |versions|
  {
    if j == 0 then []
    else (if File(c, versions[j - 1]) in cached then [] else [Version(File(c, versions[j - 1]))]) + Down(versions, c, j - 1, cached)
  }

  /** A stop at the version, unless the cache held it, and then the rest of the way. */
  ghost predicate Leads(todo: seq<Place>, f: File, cached: seq<File>, rest: seq<Place>) {
    if f in cached then todo == rest else todo != [] && todo[0] == Version(f) && todo[1..] == rest
  }

  /** The way ahead at each position of a catalogue. */
  ghost predicate LaidOut(ahead: seq<seq<Place>>, versions: seq<nat>, c: nat, cached: seq<File>, after: seq<Place>) {
    && |ahead| == |versions| > 0 && ahead[0] == after
    && forall j :: 0 <= j < |versions| - 1 ==> Leads(ahead[j + 1], File(c, versions[j]), cached, ahead[j])
  }

  lemma OneThenRest(p: Place, rest: seq<Place>, after: seq<Place>)
    ensures var all := [p] + rest + after; all != [] && all[0] == p && all[1..] == rest + after
  {
  }

  lemma DownLeads(versions: seq<nat>, c: nat, j: nat, cached: seq<File>, after: seq<Place>)
    requires j < |versions|
    ensures Leads(Down(versions, c, j + 1, cached) + after, File(c, versions[j]), cached, Down(versions, c, j, cached) + after)
  {
    var f, rest := File(c, versions[j]), Down(versions, c, j, cached);
    if f in cached {
      assert Down(versions, c, j + 1, cached) == [] + rest == rest;
    } else {
      assert Down(versions, c, j + 1, cached) == [Version(f)] + rest;
      OneThenRest(Version(f), rest, after);
    }
  }

  lemma LayOut(versions: seq<nat>, c: nat, cached: seq<File>, after: seq<Place>) returns (ahead: seq<seq<Place>>)
    requires |versions| > 0
    ensures LaidOut(ahead, versions, c, cached, after) && ahead[|versions| - 1] == Down(versions, c, |versions| - 1, cached) + after
  {
    ahead := seq(|versions|, j requires 0 <= j < |versions| => Down(versions, c, j, cached) + after);
    forall j | 0 <= j < |versions| - 1 ensures Leads(ahead[j + 1], File(c, versions[j]), cached, ahead[j]) {
      DownLeads(versions, c, j, cached, after);
    }
  }

  lemma VersionIsThere(s: State, c: nat, j: nat)
    requires Shaped(s) && c < |s.catalogs| && j < |s.catalogs[c]|
    ensures File(c, s.catalogs[c][j]) in s.files
  {
    assert s.catalogs[c][j] in s.catalogs[c];
  }

  /** One class: its catalogue, then the versions below the active one. */
  function ClassWay(catalogs: seq<seq<nat>>, c: nat, cached: seq<File>, unlistable: set<nat>): seq<Place>
    requires c < |catalogs|
  {
    [Catalogue(c)]
    + (if c in unlistable || |catalogs[c]| == 0 then [] else Down(catalogs[c], c, |catalogs[c]| - 1, cached))
  }

  function ClassesWay(catalogs: seq<seq<nat>>, c: nat, cached: seq<File>, unlistable: set<nat>): seq<Place>
    decreases |catalogs| - c
  {
    if c >= |catalogs| then [] else ClassWay(catalogs, c, cached, unlistable) + ClassesWay(catalogs, c + 1, cached, unlistable)
  }

  /** The catalogue of class `c`, then its versions if it can be listed, and then the rest of the way. */
  ghost predicate Enters(todo: seq<Place>, c: nat, unlistable: set<nat>, ahead: seq<seq<Place>>, after: seq<Place>) {
    && todo != [] && todo[0] == Catalogue(c)
    && (if c in unlistable then todo[1..] == after else |ahead| > 0 && todo[1..] == ahead[|ahead| - 1])
  }

  /** One class laid out between here and what follows it. */
  ghost predicate ClassLaid(catalogs: seq<seq<nat>>, c: nat, cached: seq<File>, unlistable: set<nat>, todo: seq<Place>, after: seq<Place>)
    requires c < |catalogs|
  {
    exists ahead :: LaidOut(ahead, catalogs[c], c, cached, after) && Enters(todo, c, unlistable, ahead, after)
  }

  lemma ClassIsLaid(catalogs: seq<seq<nat>>, c: nat, cached: seq<File>, unlistable: set<nat>)
    requires c < |catalogs| && |catalogs[c]| > 0
    ensures ClassLaid(catalogs, c, cached, unlistable, ClassesWay(catalogs, c, cached, unlistable), ClassesWay(catalogs, c + 1, cached, unlistable))
  {
    var after := ClassesWay(catalogs, c + 1, cached, unlistable);
    var ahead := LayOut(catalogs[c], c, cached, after);
    var rest := if c in unlistable then [] else Down(catalogs[c], c, |catalogs[c]| - 1, cached);
    assert ClassWay(catalogs, c, cached, unlistable) + after == [Catalogue(c)] + (rest + after);
  }

  /** The way ahead at each class, and after the last. */
  ghost predicate Planned(plan: seq<seq<Place>>, catalogs: seq<seq<nat>>, cached: seq<File>, unlistable: set<nat>) {
    && |plan| == |catalogs| + 1 && plan[|catalogs|] == []
    && forall c: nat :: c < |catalogs| ==> ClassLaid(catalogs, c, cached, unlistable, plan[c], plan[c + 1])
  }

  /** The way ahead at each version the cache holds, and after the last. */
  ghost predicate InLine(line: seq<seq<Place>>, cached: seq<File>) {
    && |line| == |cached| + 1
    && forall i :: 0 <= i < |cached| ==> line[i] != [] && line[i][0] == Version(cached[i]) && line[i][1..] == line[i + 1]
  }

  /** The whole way: what the cache holds, then every class. */
  function Way(catalogs: seq<seq<nat>>, cached: seq<File>, unlistable: set<nat>): seq<Place> {
    Versions(cached) + ClassesWay(catalogs, 0, cached, unlistable)
  }

  lemma Plan(s: State, cached: seq<File>, unlistable: set<nat>) returns (line: seq<seq<Place>>, plan: seq<seq<Place>>)
    requires Shaped(s)
    ensures InLine(line, cached) && Planned(plan, s.catalogs, cached, unlistable)
    ensures line[0] == Way(s.catalogs, cached, unlistable) && line[|cached|] == plan[0]
  {
    var after := ClassesWay(s.catalogs, 0, cached, unlistable);
    plan := seq(|s.catalogs| + 1, c requires 0 <= c <= |s.catalogs| => ClassesWay(s.catalogs, c, cached, unlistable));
    forall c: nat | c < |s.catalogs| ensures ClassLaid(s.catalogs, c, cached, unlistable, plan[c], plan[c + 1]) {
      LastIsActive(s, c);
      ClassIsLaid(s.catalogs, c, cached, unlistable);
    }
    line := LineUp(cached, after);
  }

  lemma LineUp(cached: seq<File>, after: seq<Place>) returns (line: seq<seq<Place>>)
    ensures InLine(line, cached) && line[0] == Versions(cached) + after && line[|cached|] == after
  {
    line := seq(|cached| + 1, i requires 0 <= i <= |cached| => Versions(cached)[i..] + after);
    assert Versions(cached)[0..] == Versions(cached) && Versions(cached)[|cached|..] == [];
  }

  /** Classes in turn, the catalogue before the versions, the highest version first. */
  predicate Before(a: Place, b: Place) {
    match (a, b)
    case (Catalogue(c), Catalogue(d)) => c < d
    case (Catalogue(c), Version(g)) => c <= g.cls
    case (Version(f), Catalogue(d)) => f.cls < d
    case (Version(f), Version(g)) => f.cls < g.cls || (f.cls == g.cls && f.version > g.version)
  }

  ghost predicate InTurn(ps: seq<Place>) {
    forall i, j :: 0 <= i < j < |ps| ==> Before(ps[i], ps[j])
  }

  lemma InTurnConcat(a: seq<Place>, b: seq<Place>)
    requires InTurn(a) && InTurn(b)
    requires forall x, y :: x in a && y in b ==> Before(x, y)
    ensures InTurn(a + b)
  {
    forall i, j | 0 <= i < j < |a + b| ensures Before((a + b)[i], (a + b)[j]) {
      if i < |a| && j >= |a| { assert (a + b)[i] in a && (a + b)[j] in b; }
    }
  }

  lemma {:induction false} DownIs(versions: seq<nat>, c: nat, j: nat, cached: seq<File>)
    requires j <= |versions| && Ascending(versions)
    ensures forall p :: p in Down(versions, c, j, cached) <==>
              p.Version? && p.file.cls == c && p.file !in cached && exists i :: 0 <= i < j && versions[i] == p.file.version
    ensures InTurn(Down(versions, c, j, cached))
  {
    if j > 0 {
      DownIs(versions, c, j - 1, cached);
      var first := if File(c, versions[j - 1]) in cached then [] else [Version(File(c, versions[j - 1]))];
      forall x, y | x in first && y in Down(versions, c, j - 1, cached) ensures Before(x, y) {
        assert x == Version(File(c, versions[j - 1])) && y.Version? && y.file.cls == c;
      }
      InTurnConcat(first, Down(versions, c, j - 1, cached));
    }
  }

  lemma ClassWayIs(s: State, c: nat, cached: seq<File>, unlistable: set<nat>)
    requires Shaped(s) && c < |s.catalogs|
    ensures forall p :: p in ClassWay(s.catalogs, c, cached, unlistable) <==>
              p == Catalogue(c) || (p.Version? && c !in unlistable && p.file.cls == c && Older(s, p.file) && p.file !in cached)
    ensures InTurn(ClassWay(s.catalogs, c, cached, unlistable))
  {
    var versions := s.catalogs[c];
    assert CatalogOk(versions, s.highest[c]);
    DownIs(versions, c, |versions| - 1, cached);
    forall f: File | f.cls == c ensures Older(s, f) <==> exists i :: 0 <= i < |versions| - 1 && versions[i] == f.version {
      if Older(s, f) {
        var i :| 0 <= i < |versions| && versions[i] == f.version;
        assert f == File(c, versions[i]);
      }
      if i :| 0 <= i < |versions| - 1 && versions[i] == f.version {
        assert versions[i] in versions && versions[i] < versions[|versions| - 1];
      }
    }
    if c !in unlistable { InTurnConcat([Catalogue(c)], Down(versions, c, |versions| - 1, cached)); }
  }

  lemma {:induction false} ClassesWayIs(s: State, c: nat, cached: seq<File>, unlistable: set<nat>)
    requires Shaped(s) && c <= |s.catalogs|
    ensures forall p :: p in ClassesWay(s.catalogs, c, cached, unlistable) <==>
              match p
              case Catalogue(d) => c <= d < |s.catalogs|
              case Version(f) => c <= f.cls && f.cls !in unlistable && Older(s, f) && f !in cached
    ensures InTurn(ClassesWay(s.catalogs, c, cached, unlistable))
    decreases |s.catalogs| - c
  {
    if c < |s.catalogs| {
      ClassWayIs(s, c, cached, unlistable);
      ClassesWayIs(s, c + 1, cached, unlistable);
      InTurnConcat(ClassWay(s.catalogs, c, cached, unlistable), ClassesWay(s.catalogs, c + 1, cached, unlistable));
    }
  }

  /** Where a batch goes, told without the walk: every cached version as the cache lists them, every catalogue, and every
      older version that is not cached and whose class can be listed, in turn. */
  lemma WayIs(s: State, cached: seq<File>, unlistable: set<nat>)
    requires Shaped(s)
    ensures var way := Way(s.catalogs, cached, unlistable);
            && |cached| <= |way| && (forall i :: 0 <= i < |cached| ==> way[i] == Version(cached[i]))
            && InTurn(way[|cached|..])
            && (forall p :: p in way[|cached|..] <==>
                  match p
                  case Catalogue(d) => d < |s.catalogs|
                  case Version(f) => f.cls !in unlistable && Older(s, f) && f !in cached)
  {
    ClassesWayIs(s, 0, cached, unlistable);
    assert Way(s.catalogs, cached, unlistable)[|cached|..] == ClassesWay(s.catalogs, 0, cached, unlistable);
  }

  lemma WayHas(s: State, cached: seq<File>, unlistable: set<nat>, p: Place)
    requires Shaped(s)
    ensures p in Way(s.catalogs, cached, unlistable) <==>
            match p
            case Catalogue(d) => d < |s.catalogs|
            case Version(f) => f in cached || (f.cls !in unlistable && Older(s, f))
  {
    ClassesWayIs(s, 0, cached, unlistable);
    if p.Version? {
      assert p in Versions(cached) <==> p.file in cached by {
        if p.file in cached {
          var i :| 0 <= i < |cached| && cached[i] == p.file;
          assert Versions(cached)[i] == p;
        }
      }
    }
  }

  // ------------------------------------------------------------------
  // A batch of deletions on its way
  // ------------------------------------------------------------------

  /** What goes with a walk: where it started, what it took from where, the stops made and those to come. */
  datatype Trip = Trip(start: State, from: seq<File>, trail: seq<Stop>, todo: seq<Place>, reg: bool)

  ghost function Whither(t: Trip): seq<Place> { Places(t.trail) + t.todo }

  ghost predicate SameTrip(t: Trip, u: Trip) {
    u.start == t.start && u.reg == t.reg && Whither(u) == Whither(t)
  }

  /** What stays the same along a walk. */
  datatype Walk = Walk(start: State, way: seq<Place>, reg: bool, faults: Faults)

  /** What was taken: first from active versions, then along the stops. */
  ghost predicate TakenAlong(start: State, from: seq<File>, trail: seq<Stop>) {
    && Shaped(start) && |Spread(trail)| <= |from|
    && from[|from| - |Spread(trail)|..] == Spread(trail)
    && forall j :: 0 <= j < |from| - |Spread(trail)| ==> from[j] in Actives(start)
  }

  /** What the stops tell: where the keys came from, that each was needed, and which failed. */
  ghost predicate Tracked(start: State, requests: seq<Request>, from: seq<File>, trail: seq<Stop>, complete: bool, listed: bool, faults: Faults) {
    && TakenAlong(start, from, trail) && Honest(trail, faults)
    && Needed(requests, start.files, Actives(start), trail, faults)
    && (complete <==> Whole(trail, faults)) && (listed <==> Heard(trail, faults))
  }

  /** A batch under way: no pending key was in an active version or in one that was read. */
  ghost predicate Touring(s: State, requests: seq<Request>, left: seq<nat>, erased: seq<nat>, complete: bool, listed: bool,
                          t: Trip, faults: Faults) {
    && Shaped(t.start)
    && Underway(t.start, s, requests, left, erased, t.from, true, Actives(t.start) + ReadBy(t.trail, faults))
    && Tracked(t.start, requests, t.from, t.trail, complete, listed, faults)
    && (t.reg ==> NeverEarly(faults) && Registered(s))
  }

  /** The same, of some stops made, with `todo` the way ahead as long as keys are pending. */
  ghost predicate OnTheWay(s: State, requests: seq<Request>, left: seq<nat>, erased: seq<nat>, complete: bool, listed: bool,
                           w: Walk, todo: seq<Place>) {
    exists t: Trip :: Touring(s, requests, left, erased, complete, listed, t, w.faults)
                      && t.start == w.start && t.reg == w.reg && Whither(t) == w.way && (left != [] ==> t.todo == todo)
  }

  lemma TakenOn(start: State, from: seq<File>, trail: seq<Stop>, f: File, n: nat)
    requires TakenAlong(start, from, trail)
    ensures TakenAlong(start, from + Repeated(f, n), trail + [Stop(Version(f), n)])
  {
    assert (trail + [Stop(Version(f), n)])[..|trail|] == trail;
    var first := |from| - |Spread(trail)|;
    assert (from + Repeated(f, n))[first..] == from[first..] + Repeated(f, n);
  }

  lemma HonestOn(trail: seq<Stop>, s: Stop, faults: Faults)
    requires Honest(trail, faults) && (s.place.Version? && s.place.file in faults.refuses ==> s.taken == 0)
    ensures Honest(trail + [s], faults)
  {
  }

  lemma TrackedOn(start: State, requests: seq<Request>, from: seq<File>, trail: seq<Stop>, complete: bool, listed: bool, faults: Faults,
                  list: seq<nat>, stop: Stop, more: seq<File>)
    requires Tracked(start, requests, from, trail, complete, listed, faults)
    requires Clear(requests, list, start.files, Actives(start) + ReadBy(trail, faults)) && InBatch(requests, list) && list != []
    requires if stop.place.Version? then more == Repeated(stop.place.file, stop.taken) else more == []
    requires stop.place.Version? && stop.place.file in faults.refuses ==> stop.taken == 0
    ensures Tracked(start, requests, from + more, trail + [stop], complete && !Fails(faults, stop),
                    listed && !(stop.place.Catalogue? && Fails(faults, stop)), faults)
  {
    TrailOn(trail, stop, faults);
    if stop.place.Version? { TakenOn(start, from, trail, stop.place.file, stop.taken); } else { assert from + more == from; }
    HonestOn(trail, stop, faults);
    NeededOn(requests, list, start.files, Actives(start), trail, stop, faults);
  }

  lemma PendingIsInBatch(s: State, requests: seq<Request>, list: seq<nat>, erased: seq<nat>, complete: bool, listed: bool, t: Trip, faults: Faults)
    requires Touring(s, requests, list, erased, complete, listed, t, faults)
    ensures InBatch(requests, list) && Clear(requests, list, t.start.files, Actives(t.start) + ReadBy(t.trail, faults))
    ensures Tracked(t.start, requests, t.from, t.trail, complete, listed, faults)
  {
    OwedIsDistinct(requests, list, erased);
  }

  /** A version was visited. */
  lemma TouringOn(s: State, requests: seq<Request>, left: seq<nat>, erased: seq<nat>, complete: bool, listed: bool, t: Trip, faults: Faults,
                  list: seq<nat>, f: File, n: nat, u: Trip)
    requires Shaped(t.start) && list != [] && InBatch(requests, list)
    requires Clear(requests, list, t.start.files, Actives(t.start) + ReadBy(t.trail, faults))
    requires Tracked(t.start, requests, t.from, t.trail, complete, listed, faults)
    requires t.todo != [] && t.todo[0] == Version(f) && (f in faults.refuses ==> n == 0)
    requires u == Trip(t.start, t.from + Repeated(f, n), t.trail + [Stop(Version(f), n)], t.todo[1..], t.reg)
    requires Underway(t.start, s, requests, left, erased, u.from, true, Actives(t.start) + ReadBy(u.trail, faults))
    requires t.reg ==> NeverEarly(faults) && Registered(s)
    ensures Touring(s, requests, left, erased, complete && !Fails(faults, Stop(Version(f), n)), listed, u, faults) && SameTrip(t, u)
  {
    var stop := Stop(Version(f), n);
    TrackedOn(t.start, requests, t.from, t.trail, complete, listed, faults, list, stop, Repeated(f, n));
    PlacesOn(t.trail, t.todo, stop);
  }

  /** A catalogue was asked for. */
  lemma TouringListed(s: State, requests: seq<Request>, list: seq<nat>, erased: seq<nat>, complete: bool, listed: bool, t: Trip, faults: Faults,
                      c: nat, u: Trip)
    requires Touring(s, requests, list, erased, complete, listed, t, faults) && list != []
    requires t.todo != [] && t.todo[0] == Catalogue(c)
    requires u == Trip(t.start, t.from, t.trail + [Stop(Catalogue(c), 0)], t.todo[1..], t.reg)
    ensures var heard := c !in faults.unlistable;
            Touring(s, requests, list, erased, complete && heard, listed && heard, u, faults) && SameTrip(t, u)
  {
    var stop := Stop(Catalogue(c), 0);
    PendingIsInBatch(s, requests, list, erased, complete, listed, t, faults);
    TrackedOn(t.start, requests, t.from, t.trail, complete, listed, faults, list, stop, []);
    assert t.from + [] == t.from;
    TrailOn(t.trail, stop, faults);
    assert ReadBy(u.trail, faults) == ReadBy(t.trail, faults);
    PlacesOn(t.trail, t.todo, stop);
  }

  // ------------------------------------------------------------------
  // A resolution on its way
  // ------------------------------------------------------------------

  /** The stops of a resolution and those to come. */
  datatype Tour = Tour(trail: seq<Stop>, todo: seq<Place>)

  ghost predicate SameTour(t: Tour, u: Tour) {
    Places(u.trail) + u.todo == Places(t.trail) + t.todo
  }

  /** Everything found was found in a version that was read. */
  ghost predicate FoundIn(files: Files, found: Table, seen: set<File>) {
    forall k :: k in found ==> exists f :: f in seen && Stores(files, f, k)
  }

  /** A resolution under way: no pending key is in a version that was read. */
  ghost predicate Looking(s: State, requests: seq<Request>, left: seq<nat>, hits: seq<nat>, found: Table, complete: bool, listed: bool,
                          t: Tour, faults: Faults) {
    && Resolving(s, requests, left, hits, found, true, ReadBy(t.trail, faults))
    && FoundIn(s.files, found, ReadBy(t.trail, faults)) && Needed(requests, s.files, {}, t.trail, faults)
    && (complete <==> Whole(t.trail, faults)) && (listed <==> Heard(t.trail, faults))
  }

  /** The same, of some stops made and keys answered, with `todo` the way ahead as long as keys are pending. */
  ghost predicate Searching(s: State, requests: seq<Request>, left: seq<nat>, found: Table, complete: bool, listed: bool,
                            way: seq<Place>, todo: seq<Place>, faults: Faults) {
    exists t: Tour, hits: seq<nat> :: Looking(s, requests, left, hits, found, complete, listed, t, faults)
                                      && Places(t.trail) + t.todo == way && (left != [] ==> t.todo == todo)
  }

  lemma NothingBefore(trail: seq<Stop>, faults: Faults)
    ensures {} + ReadBy(trail, faults) == ReadBy(trail, faults)
  {
  }

  lemma FoundOn(files: Files, found: Table, more: Table, keys: set<Key>, seen: set<File>, f: File)
    requires FoundIn(files, found, seen) && f in files && Answers(found, more, keys, files[f])
    ensures FoundIn(files, more, seen + {f})
  {
    forall k | k in more ensures exists g :: g in seen + {f} && Stores(files, g, k) {
      if k in found {
        var g :| g in seen && Stores(files, g, k);
        assert g in seen + {f};
      } else {
        assert f in seen + {f} && Stores(files, f, k);
      }
    }
  }

  /** A version was read. */
  lemma LookingOn(s: State, requests: seq<Request>, list: seq<nat>, hits: seq<nat>, found: Table, complete: bool, listed: bool, t: Tour,
                  faults: Faults, more: Table, f: File, u: Tour)
    requires Looking(s, requests, list, hits, found, complete, listed, t, faults) && list != [] && faults.throws == map[]
    requires t.todo != [] && t.todo[0] == Version(f) && Older(s, f) && f !in faults.refuses
    requires Answers(found, more, KeysOf(requests, Hits(requests, list, s.files[f])), s.files[f])
    requires u == Tour(t.trail + [Stop(Version(f), |Hits(requests, list, s.files[f])|)], t.todo[1..])
    ensures Looking(s, requests, Misses(requests, list, s.files[f]), hits + Hits(requests, list, s.files[f]), more, complete, listed, u, faults)
    ensures SameTour(t, u)
  {
    var stop := Stop(Version(f), |Hits(requests, list, s.files[f])|);
    TrailOn(t.trail, stop, faults);
    NothingBefore(t.trail, faults);
    NeededOn(requests, list, s.files, {}, t.trail, stop, faults);
    ResolvingOn(s, requests, list, hits, found, more, true, ReadBy(t.trail, faults), f);
    FoundOn(s.files, found, more, KeysOf(requests, Hits(requests, list, s.files[f])), ReadBy(t.trail, faults), f);
    PlacesOn(t.trail, t.todo, stop);
  }

  /** A stop from which nothing comes: a version that does not open, or a catalogue. */
  lemma LookingPast(s: State, requests: seq<Request>, list: seq<nat>, hits: seq<nat>, found: Table, complete: bool, listed: bool, t: Tour,
                    faults: Faults, u: Tour)
    requires Looking(s, requests, list, hits, found, complete, listed, t, faults) && list != []
    requires t.todo != [] && (t.todo[0].Version? ==> t.todo[0].file in faults.refuses)
    requires u == Tour(t.trail + [Stop(t.todo[0], 0)], t.todo[1..])
    ensures var works := t.todo[0].Catalogue? && t.todo[0].cls !in faults.unlistable;
            Looking(s, requests, list, hits, found, complete && works, listed && (works || t.todo[0].Version?), u, faults)
    ensures SameTour(t, u)
  {
    var stop := Stop(t.todo[0], 0);
    TrailOn(t.trail, stop, faults);
    NothingBefore(t.trail, faults);
    NeededOn(requests, list, s.files, {}, t.trail, stop, faults);
    assert ReadBy(u.trail, faults) == ReadBy(t.trail, faults);
    PlacesOn(t.trail, t.todo, stop);
  }

  // ------------------------------------------------------------------
  // A whole batch
  // ------------------------------------------------------------------

  /** The stops of a call: the first of the way, each made while some key was pending, and all of them if keys are left.
      No key that is left was in `base` or in a version that was read. */
  ghost predicate Walked(files: Files, catalogs: seq<seq<nat>>, base: set<File>, requests: seq<Request>, rest: seq<nat>, trail: seq<Stop>,
                         cached: seq<File>, faults: Faults) {
    && Needed(requests, files, base, trail, faults)
    && Places(trail) <= Way(catalogs, cached, faults.unlistable)
    && (rest != [] ==> Places(trail) == Way(catalogs, cached, faults.unlistable))
    && Clear(requests, rest, files, base + ReadBy(trail, faults))
  }

  /** The error a call answers: there exactly when a stop failed, of the catalogue exactly when a catalogue did. */
  function Verdict(complete: bool, listed: bool): Option<Error> {
    if complete then None else Some(if listed then VersionUnreadable else CatalogUnreadable)
  }

  /** What a batch of deletions tells of its way. */
  ghost predicate Traced(s0: State, requests: seq<Request>, p: Progress, rest: seq<nat>, from: seq<File>, trail: seq<Stop>,
                       cached: seq<File>, faults: Faults) {
    && Shaped(s0) && TakenAlong(s0, from, trail) && Honest(trail, faults)
    && Walked(s0.files, s0.catalogs, Actives(s0), requests, rest, trail, cached, faults)
    && p.error == Verdict(Whole(trail, faults), Heard(trail, faults))
  }

  /** Nothing failed and keys are left: everything was read. */
  lemma EverythingRead(s0: State, trail: seq<Stop>, cached: seq<File>, faults: Faults)
    requires Shaped(s0) && Whole(trail, faults) && Places(trail) == Way(s0.catalogs, cached, faults.unlistable)
    ensures forall f :: f in s0.files ==> f in Actives(s0) + ReadBy(trail, faults)
  {
    forall c: nat | c < |s0.catalogs| ensures c !in faults.unlistable {
      WayHas(s0, cached, faults.unlistable, Catalogue(c));
      var i :| 0 <= i < |Places(trail)| && Places(trail)[i] == Catalogue(c);
      assert !Fails(faults, trail[i]);
    }
    forall f | f in s0.files ensures f in Actives(s0) + ReadBy(trail, faults) {
      LastIsActive(s0, f.cls);
      if !IsActive(s0, f) {
        WayHas(s0, cached, faults.unlistable, Version(f));
        var i :| 0 <= i < |Places(trail)| && Places(trail)[i] == Version(f);
        assert trail[i].place == Version(f) && !Fails(faults, trail[i]);
      }
    }
  }

  /** Where nothing can fail, nothing does. */
  lemma QuietIsWhole(s0: State, trail: seq<Stop>, cached: seq<File>, faults: Faults)
    requires Shaped(s0) && Quiet(faults, s0.files) && (forall f :: f in cached ==> f in s0.files)
    requires Places(trail) <= Way(s0.catalogs, cached, faults.unlistable)
    ensures Whole(trail, faults)
  {
    forall i | 0 <= i < |trail| ensures !Fails(faults, trail[i]) {
      assert Places(trail)[i] == Way(s0.catalogs, cached, faults.unlistable)[i];
      WayHas(s0, cached, faults.unlistable, trail[i].place);
    }
  }

  /** The last stop: what a batch did and what it tells. */
  lemma BatchEnds(s: State, requests: seq<Request>, p: Progress, erased: seq<nat>, rest: seq<nat>, complete: bool, listed: bool,
                  w: Walk, cached: seq<File>) returns (from: seq<File>, trail: seq<Stop>)
    requires OnTheWay(s, requests, rest, erased, complete, listed, w, [])
    requires w.way == Way(w.start.catalogs, cached, w.faults.unlistable)
    requires InBatch(requests, erased) && InBatch(requests, rest) && p.erased == Picked(requests, erased)
    requires p.error == Verdict(complete, listed)
    requires p.absent == (if complete then Picked(requests, rest) else [])
    requires p.unresolved == (if complete then [] else Picked(requests, rest))
    ensures Batched(w.start, s, requests, p, erased, rest, from)
    ensures Traced(w.start, requests, p, rest, from, trail, cached, w.faults)
    ensures w.reg ==> Shaped(s) && Registered(s)
  {
    var t := SoFar(s, requests, rest, erased, complete, listed, w, []);
    from, trail := t.from, t.trail;
    assert Places(trail) <= Whither(t);
    if rest != [] {
      assert Whither(t) == Places(trail);
      if complete { EverythingRead(w.start, trail, cached, w.faults); }
    }
  }

  /** A version that was stopped at and yet stores a key that is left failed there. */
  lemma StoppedInVain(files: Files, base: set<File>, requests: seq<Request>, rest: seq<nat>, trail: seq<Stop>, faults: Faults, i: nat, f: File)
    returns (k: nat)
    requires Clear(requests, rest, files, base + ReadBy(trail, faults)) && i in rest && i < |requests| && Stores(files, f, requests[i].key)
    requires Version(f) in Places(trail)
    ensures k < |trail| && trail[k].place == Version(f) && Fails(faults, trail[k]) && f !in base
  {
    var p :| 0 <= p < |rest| && rest[p] == i;
    k :| 0 <= k < |Places(trail)| && Places(trail)[k] == Version(f);
    assert f !in base + ReadBy(trail, faults);
  }

  lemma NotActive(files: Files, base: set<File>, requests: seq<Request>, rest: seq<nat>, seen: set<File>, i: nat, f: File)
    requires Clear(requests, rest, files, base + seen) && i in rest && i < |requests| && Stores(files, f, requests[i].key)
    ensures f !in base
  {
    var p :| 0 <= p < |rest| && rest[p] == i;
  }

  /** Thoroughness. A key that a call leaves, absent or unresolved, was in no active version, in no cached version and in
      no version of a class that lists, but for those that did not open and those an exception cut short after that many
      keys had been taken from them. One unreadable version does not spare the others. */
  lemma LeftOnlyUnread(s0: State, requests: seq<Request>, p: Progress, rest: seq<nat>, from: seq<File>, trail: seq<Stop>,
                       cached: seq<File>, faults: Faults, i: nat, f: File)
    requires Traced(s0, requests, p, rest, from, trail, cached, faults)
    requires i in rest && i < |requests| && Stores(s0.files, f, requests[i].key)
    ensures f !in Actives(s0)
    ensures || f in faults.refuses
            || (f in faults.throws && faults.throws[f] > 0 && multiset(from)[f] >= faults.throws[f])
            || (f !in cached && f.cls in faults.unlistable)
  {
    NotActive(s0.files, Actives(s0), requests, rest, ReadBy(trail, faults), i, f);
    if f in cached || f.cls !in faults.unlistable {
      StoppedAt(s0, cached, faults, trail, f);
      var k := StoppedInVain(s0.files, Actives(s0), requests, rest, trail, faults, i, f);
      TakenAt(trail, k);
      SpreadInFrom(from, trail, f);
    }
  }

  lemma StoppedAt(s0: State, cached: seq<File>, faults: Faults, trail: seq<Stop>, f: File)
    requires Shaped(s0) && f in s0.files && f !in Actives(s0) && (f in cached || f.cls !in faults.unlistable)
    requires Places(trail) == Way(s0.catalogs, cached, faults.unlistable)
    ensures Version(f) in Places(trail)
  {
    LastIsActive(s0, f.cls);
    WayHas(s0, cached, faults.unlistable, Version(f));
  }

  lemma {:induction false} TakenAt(trail: seq<Stop>, k: nat)
    requires k < |trail| && trail[k].place.Version?
    ensures multiset(Spread(trail))[trail[k].place.file] >= trail[k].taken
  {
    var init, last := trail[..|trail| - 1], trail[|trail| - 1];
    if k < |trail| - 1 {
      TakenAt(init, k);
    } else {
      RepeatedCounts(trail[k].place.file, trail[k].taken);
    }
  }

  lemma {:induction false} RepeatedCounts(f: File, n: nat)
    ensures multiset(Repeated(f, n))[f] == n
  {
    if n > 0 {
      RepeatedCounts(f, n - 1);
      assert Repeated(f, n) == Repeated(f, n - 1) + [f];
    } else {
      assert Repeated(f, 0) == [];
    }
  }

  lemma SpreadInFrom(from: seq<File>, trail: seq<Stop>, f: File)
    requires |Spread(trail)| <= |from| && from[|from| - |Spread(trail)|..] == Spread(trail)
    ensures multiset(from)[f] >= multiset(Spread(trail))[f]
  {
    assert from == from[..|from| - |Spread(trail)|] + Spread(trail);
  }

  lemma OnTheWayBegins(s: State, requests: seq<Request>, left: seq<nat>, erased: seq<nat>, from: seq<File>, w: Walk)
    requires Shaped(w.start) && Underway(w.start, s, requests, left, erased, from, true, Actives(w.start))
    requires forall f :: f in from ==> f in Actives(w.start)
    requires w.reg ==> NeverEarly(w.faults) && Registered(s)
    ensures OnTheWay(s, requests, left, erased, true, true, w, w.way)
  {
    var t := Trip(w.start, from, [], w.way, w.reg);
    assert ReadBy(t.trail, w.faults) == {};
    assert Actives(w.start) + ReadBy(t.trail, w.faults) == Actives(w.start);
    assert Whither(t) == w.way;
    assert Touring(s, requests, left, erased, true, true, t, w.faults);
  }

  /** The stops of a batch on its way. */
  lemma SoFar(s: State, requests: seq<Request>, left: seq<nat>, erased: seq<nat>, complete: bool, listed: bool, w: Walk, todo: seq<Place>)
    returns (t: Trip)
    requires OnTheWay(s, requests, left, erased, complete, listed, w, todo)
    ensures Touring(s, requests, left, erased, complete, listed, t, w.faults)
    ensures t.start == w.start && t.reg == w.reg && Whither(t) == w.way && (left != [] ==> t.todo == todo)
  {
    t :| Touring(s, requests, left, erased, complete, listed, t, w.faults)
         && t.start == w.start && t.reg == w.reg && Whither(t) == w.way && (left != [] ==> t.todo == todo);
  }

  lemma FromHere(s: State, requests: seq<Request>, left: seq<nat>, erased: seq<nat>, complete: bool, listed: bool, w: Walk, t: Trip)
    requires Touring(s, requests, left, erased, complete, listed, t, w.faults)
    requires t.start == w.start && t.reg == w.reg && Whither(t) == w.way
    ensures OnTheWay(s, requests, left, erased, complete, listed, w, t.todo)
  {
  }

  lemma OnTheWayListed(s: State, requests: seq<Request>, list: seq<nat>, erased: seq<nat>, complete: bool, listed: bool, w: Walk,
                       c: nat, todo: seq<Place>)
    requires OnTheWay(s, requests, list, erased, complete, listed, w, todo) && list != [] && todo != [] && todo[0] == Catalogue(c)
    ensures var heard := c !in w.faults.unlistable;
            OnTheWay(s, requests, list, erased, complete && heard, listed && heard, w, todo[1..])
  {
    var t := SoFar(s, requests, list, erased, complete, listed, w, todo);
    var u := Trip(t.start, t.from, t.trail + [Stop(Catalogue(c), 0)], t.todo[1..], t.reg);
    TouringListed(s, requests, list, erased, complete, listed, t, w.faults, c, u);
    var heard := c !in w.faults.unlistable;
    FromHere(s, requests, list, erased, complete && heard, listed && heard, w, u);
  }

  lemma DoneIsInBatch(s: State, requests: seq<Request>, left: seq<nat>, erased: seq<nat>, complete: bool, listed: bool, w: Walk, todo: seq<Place>)
    requires OnTheWay(s, requests, left, erased, complete, listed, w, todo)
    ensures InBatch(requests, erased) && InBatch(requests, left)
  {
    OwedIsDistinct(requests, left, erased);
  }

  // ------------------------------------------------------------------
  // A whole resolution
  // ------------------------------------------------------------------

  /** What a resolution answers, from its way: it succeeds exactly when no stop failed, whatever it had found, and what is
      left is what no version that was read stores. */
  ghost predicate Sought(s: State, requests: seq<Request>, r: Result<Resolved>, rest: seq<nat>, found: Table, trail: seq<Stop>,
                         cached: seq<File>, faults: Faults) {
    && Shaped(s) && Walked(s.files, s.catalogs, {}, requests, rest, trail, cached, faults)
    && FoundIn(s.files, found, ReadBy(trail, faults)) && (rest == [] ==> forall k :: Names(requests, k) ==> k in found)
    && (r.Ok? <==> Whole(trail, faults))
    && (r.Err? ==> Some(r.error) == Verdict(Whole(trail, faults), Heard(trail, faults)))
  }

  /** With nothing left, every key asked for was found. */
  lemma NothingLeft(s: State, requests: seq<Request>, rest: seq<nat>, hits: seq<nat>, found: Table, seen: set<File>)
    requires Resolving(s, requests, rest, hits, found, true, seen) && rest == []
    ensures forall k :: Names(requests, k) ==> k in found
  {
    forall k | Names(requests, k) ensures k in found {
      WorkingSetNames(requests, hits, rest, k);
      KeysAreNames(requests, hits, k);
    }
  }

  /** Nothing failed and keys are left: every older version was read. */
  lemma OlderRead(s: State, trail: seq<Stop>, cached: seq<File>, faults: Faults)
    requires Shaped(s) && Whole(trail, faults) && Places(trail) == Way(s.catalogs, cached, faults.unlistable)
    ensures forall f :: Older(s, f) ==> f in ReadBy(trail, faults)
  {
    EverythingRead(s, trail, cached, faults);
    forall f | Older(s, f) ensures f in ReadBy(trail, faults) { NoActiveIsOlder(s, f); }
  }

  lemma NoActiveIsOlder(s: State, f: File)
    requires Older(s, f)
    ensures f !in Actives(s)
  {
  }

  lemma SearchingBegins(s: State, requests: seq<Request>, way: seq<Place>, faults: Faults)
    requires Shaped(s)
    ensures Searching(s, requests, WorkingSet(requests), map[], true, true, way, way, faults)
  {
    ResolvingAtFirst(s, requests);
    var t := Tour([], way);
    assert ReadBy(t.trail, faults) == {};
    assert Places(t.trail) + t.todo == way;
    assert Looking(s, requests, WorkingSet(requests), [], map[], true, true, t, faults);
  }

  /** The stops of a resolution on its way. */
  lemma SearchedSoFar(s: State, requests: seq<Request>, left: seq<nat>, found: Table, complete: bool, listed: bool,
                      way: seq<Place>, todo: seq<Place>, faults: Faults) returns (t: Tour, hits: seq<nat>)
    requires Searching(s, requests, left, found, complete, listed, way, todo, faults)
    ensures Looking(s, requests, left, hits, found, complete, listed, t, faults)
    ensures Places(t.trail) + t.todo == way && (left != [] ==> t.todo == todo)
  {
    t, hits :| Looking(s, requests, left, hits, found, complete, listed, t, faults)
               && Places(t.trail) + t.todo == way && (left != [] ==> t.todo == todo);
  }

  lemma SearchedThisFar(s: State, requests: seq<Request>, left: seq<nat>, hits: seq<nat>, found: Table, complete: bool, listed: bool,
                        way: seq<Place>, faults: Faults, t: Tour)
    requires Looking(s, requests, left, hits, found, complete, listed, t, faults) && Places(t.trail) + t.todo == way
    ensures Searching(s, requests, left, found, complete, listed, way, t.todo, faults)
  {
  }

  /** A version of a resolution that opens, and one that does not. */
  lemma SearchingOn(s: State, requests: seq<Request>, list: seq<nat>, found: Table, complete: bool, listed: bool, way: seq<Place>,
                    todo: seq<Place>, faults: Faults, more: Table, f: File)
    requires Searching(s, requests, list, found, complete, listed, way, todo, faults) && list != [] && faults.throws == map[]
    requires todo != [] && todo[0] == Version(f) && Older(s, f) && f !in faults.refuses && InBatch(requests, list)
    requires Answers(found, more, KeysOf(requests, Hits(requests, list, s.files[f])), s.files[f])
    ensures Searching(s, requests, Misses(requests, list, s.files[f]), more, complete, listed, way, todo[1..], faults)
  {
    var t, hits := SearchedSoFar(s, requests, list, found, complete, listed, way, todo, faults);
    var u := Tour(t.trail + [Stop(Version(f), |Hits(requests, list, s.files[f])|)], t.todo[1..]);
    LookingOn(s, requests, list, hits, found, complete, listed, t, faults, more, f, u);
    SearchedThisFar(s, requests, Misses(requests, list, s.files[f]), hits + Hits(requests, list, s.files[f]), more, complete, listed, way, faults, u);
  }

  lemma SearchingShut(s: State, requests: seq<Request>, list: seq<nat>, found: Table, complete: bool, listed: bool, way: seq<Place>,
                      todo: seq<Place>, faults: Faults, f: File)
    requires Searching(s, requests, list, found, complete, listed, way, todo, faults) && list != []
    requires todo != [] && todo[0] == Version(f) && f in faults.refuses
    ensures Searching(s, requests, list, found, false, listed, way, todo[1..], faults)
  {
    var t, hits := SearchedSoFar(s, requests, list, found, complete, listed, way, todo, faults);
    LookingPast(s, requests, list, hits, found, complete, listed, t, faults, Tour(t.trail + [Stop(Version(f), 0)], t.todo[1..]));
  }

  lemma SearchingInBatch(s: State, requests: seq<Request>, list: seq<nat>, found: Table, complete: bool, listed: bool, way: seq<Place>,
                         todo: seq<Place>, faults: Faults)
    requires Searching(s, requests, list, found, complete, listed, way, todo, faults)
    ensures InBatch(requests, list)
  {
  }

  lemma SearchingPast(s: State, requests: seq<Request>, list: seq<nat>, found: Table, complete: bool, listed: bool, way: seq<Place>,
                      c: nat, todo: seq<Place>, faults: Faults)
    requires Searching(s, requests, list, found, complete, listed, way, todo, faults) && list != []
    requires todo != [] && todo[0] == Catalogue(c)
    ensures var heard := c !in faults.unlistable;
            Searching(s, requests, list, found, complete && heard, listed && heard, way, todo[1..], faults)
  {
    var t, hits := SearchedSoFar(s, requests, list, found, complete, listed, way, todo, faults);
    LookingPast(s, requests, list, hits, found, complete, listed, t, faults, Tour(t.trail + [Stop(Catalogue(c), 0)], t.todo[1..]));
  }

  /** The last stop: what a resolution answers. */
  lemma SearchEnds(s: State, requests: seq<Request>, rest: seq<nat>, found: Table, complete: bool, listed: bool,
                   cached: seq<File>, faults: Faults) returns (trail: seq<Stop>)
    requires Shaped(s) && Searching(s, requests, rest, found, complete, listed, Way(s.catalogs, cached, faults.unlistable), [], faults)
    ensures InBatch(requests, rest)
    ensures Sought(s, requests, if complete then Ok(Resolved(found, Picked(requests, rest))) else Err(Verdict(complete, listed).value),
                   rest, found, trail, cached, faults)
    ensures complete ==> Exact(s, requests, Resolved(found, Picked(requests, rest)))
    ensures faults.refuses == {} && faults.throws == map[] && faults.unlistable == {} ==> complete
  {
    var t: Tour, hits: seq<nat> :| Looking(s, requests, rest, hits, found, complete, listed, t, faults)
                                   && Places(t.trail) + t.todo == Way(s.catalogs, cached, faults.unlistable) && (rest != [] ==> t.todo == []);
    trail := t.trail;
    NothingBefore(trail, faults);
    assert Places(trail) <= Places(trail) + t.todo;
    if rest == [] {
      NothingLeft(s, requests, rest, hits, found, ReadBy(trail, faults));
    } else {
      assert Places(trail) + t.todo == Places(trail);
      if complete { OlderRead(s, trail, cached, faults); }
    }
    if complete { ResolveMeans(s, requests, rest, hits, found, ReadBy(trail, faults)); }
  }

  // ------------------------------------------------------------------
  // When a call answers an error, and which
  // ------------------------------------------------------------------

  /** A version that does not open, or a catalogue that cannot be listed. */
  predicate Barred(p: Place, faults: Faults) {
    match p
    case Version(f) => f in faults.refuses
    case Catalogue(c) => c in faults.unlistable
  }

  /** The versions among these places that open. */
  ghost function Opens(ps: seq<Place>, refuses: set<File>): (r: set<File>)
    ensures forall f :: f in r <==> Version(f) in ps && f !in refuses
  {
    set p | p in ps && p.Version? && p.file !in refuses :: p.file
  }

  /** Some key asked for is in none of the versions that come before place `n` and open. */
  ghost predicate Awaited(requests: seq<Request>, files: Files, base: set<File>, way: seq<Place>, n: nat, refuses: set<File>)
    requires n <= |way|
  {
    Wanted(requests, files, base + Opens(way[..n], refuses))
  }

  /** A key is awaited at a barred place: of any kind, or a catalogue. */
  ghost predicate Baulked(requests: seq<Request>, files: Files, base: set<File>, way: seq<Place>, faults: Faults, catalogue: bool) {
    exists n: nat :: n < |way| && Barred(way[n], faults) && (catalogue ==> way[n].Catalogue?)
                     && Awaited(requests, files, base, way, n, faults.refuses)
  }

  /** With nothing left, every key was in `base` or in a version that was read. */
  ghost predicate Gathered(requests: seq<Request>, files: Files, seen: set<File>) {
    forall w: nat :: w < |requests| ==> !Unseen(requests[w].key, files, seen)
  }

  lemma OpensAsRead(trail: seq<Stop>, way: seq<Place>, n: nat, faults: Faults)
    requires Places(trail) <= way && n <= |way| && faults.throws == map[]
    ensures n <= |trail| ==> Opens(way[..n], faults.refuses) == ReadBy(trail[..n], faults)
    ensures n >= |trail| ==> ReadBy(trail, faults) <= Opens(way[..n], faults.refuses)
  {
    forall i | 0 <= i < |trail| ensures way[i] == trail[i].place { assert way[i] == Places(trail)[i]; }
    if n <= |trail| {
      forall f ensures f in Opens(way[..n], faults.refuses) <==> f in ReadBy(trail[..n], faults) {
        if f in Opens(way[..n], faults.refuses) {
          var i :| 0 <= i < n && way[..n][i] == Version(f);
          assert trail[..n][i].place == Version(f) && !Fails(faults, trail[..n][i]);
        }
        if f in ReadBy(trail[..n], faults) {
          var i :| 0 <= i < n && trail[..n][i].place == Version(f) && !Fails(faults, trail[..n][i]);
          assert way[..n][i] == Version(f);
        }
      }
    }
    if n >= |trail| {
      forall f | f in ReadBy(trail, faults) ensures f in Opens(way[..n], faults.refuses) {
        var i :| 0 <= i < |trail| && trail[i].place == Version(f) && !Fails(faults, trail[i]);
        assert way[..n][i] == Version(f);
      }
    }
  }

  lemma FewerRead(trail: seq<Stop>, n: nat, m: nat, faults: Faults)
    requires n <= m <= |trail|
    ensures ReadBy(trail[..n], faults) <= ReadBy(trail[..m], faults)
  {
    forall f | f in ReadBy(trail[..n], faults) ensures f in ReadBy(trail[..m], faults) {
      var i :| 0 <= i < n && trail[..n][i].place == Version(f) && !Fails(faults, trail[..n][i]);
      assert trail[..m][i] == trail[..n][i];
    }
  }

  lemma WantedOfFewer(requests: seq<Request>, files: Files, few: set<File>, many: set<File>)
    requires Wanted(requests, files, many) && few <= many
    ensures Wanted(requests, files, few)
  {
    var w: nat :| w < |requests| && Unseen(requests[w].key, files, many);
    assert Unseen(requests[w].key, files, few);
  }

  lemma NotWanted(requests: seq<Request>, files: Files, few: set<File>, many: set<File>)
    requires Gathered(requests, files, few) && few <= many
    ensures !Wanted(requests, files, many)
  {
    forall w: nat | w < |requests| ensures !Unseen(requests[w].key, files, many) {
      var f :| f in few && Stores(files, f, requests[w].key);
      assert f in many;
    }
  }

  lemma ComesWhileAwaited(files: Files, base: set<File>, requests: seq<Request>, trail: seq<Stop>, way: seq<Place>, faults: Faults, n: nat)
    requires Needed(requests, files, base, trail, faults) && Places(trail) <= way && faults.throws == map[] && n < |trail|
    ensures Awaited(requests, files, base, way, n, faults.refuses)
  {
    OpensAsRead(trail, way, n, faults);
    FewerRead(trail, n, |trail| - 1, faults);
    var few, many := ReadBy(trail[..n], faults), ReadBy(trail[..|trail| - 1], faults);
    WantedOfFewer(requests, files, base + few, base + many);
  }

  lemma StopsOnceGathered(files: Files, base: set<File>, requests: seq<Request>, trail: seq<Stop>, way: seq<Place>, faults: Faults, n: nat)
    requires Gathered(requests, files, base + ReadBy(trail, faults)) && Places(trail) <= way && faults.throws == map[]
    requires |trail| <= n <= |way|
    ensures !Awaited(requests, files, base, way, n, faults.refuses)
  {
    OpensAsRead(trail, way, n, faults);
    var few, many := ReadBy(trail, faults), Opens(way[..n], faults.refuses);
    NotWanted(requests, files, base + few, base + many);
  }

  /** A call comes to a place exactly when some key is still awaited there. */
  lemma ComesTo(files: Files, catalogs: seq<seq<nat>>, base: set<File>, requests: seq<Request>, rest: seq<nat>, trail: seq<Stop>,
                cached: seq<File>, faults: Faults, n: nat)
    requires Walked(files, catalogs, base, requests, rest, trail, cached, faults) && faults.throws == map[]
    requires rest == [] ==> Gathered(requests, files, base + ReadBy(trail, faults))
    requires n < |Way(catalogs, cached, faults.unlistable)|
    ensures n < |trail| <==> Awaited(requests, files, base, Way(catalogs, cached, faults.unlistable), n, faults.refuses)
  {
    if n < |trail| {
      ComesWhileAwaited(files, base, requests, trail, Way(catalogs, cached, faults.unlistable), faults, n);
    } else {
      StopsOnceGathered(files, base, requests, trail, Way(catalogs, cached, faults.unlistable), faults, n);
    }
  }

  /** A stop failed. */
  ghost predicate SomeFailed(trail: seq<Stop>, faults: Faults, catalogue: bool) {
    exists i: nat :: i < |trail| && Fails(faults, trail[i]) && (catalogue ==> trail[i].place.Catalogue?)
  }

  lemma FailedThere(requests: seq<Request>, files: Files, base: set<File>, trail: seq<Stop>, way: seq<Place>, faults: Faults, catalogue: bool)
    requires Places(trail) <= way && faults.throws == map[]
    requires forall n: nat :: n < |way| ==> (n < |trail| <==> Awaited(requests, files, base, way, n, faults.refuses))
    ensures SomeFailed(trail, faults, catalogue) <==> Baulked(requests, files, base, way, faults, catalogue)
  {
    forall i: nat | i < |trail| ensures i < |way| && way[i] == trail[i].place { assert Places(trail)[i] == trail[i].place; }
    if SomeFailed(trail, faults, catalogue) {
      var i: nat :| i < |trail| && Fails(faults, trail[i]) && (catalogue ==> trail[i].place.Catalogue?);
      assert Barred(way[i], faults) && Awaited(requests, files, base, way, i, faults.refuses);
    }
    if Baulked(requests, files, base, way, faults, catalogue) {
      var n: nat :| n < |way| && Barred(way[n], faults) && (catalogue ==> way[n].Catalogue?)
                    && Awaited(requests, files, base, way, n, faults.refuses);
      assert n < |trail| && Fails(faults, trail[n]);
    }
  }

  /** A stop failed exactly when a key was awaited at a barred place, and a catalogue failed exactly when at a catalogue. */
  lemma FailsExactly(files: Files, catalogs: seq<seq<nat>>, base: set<File>, requests: seq<Request>, rest: seq<nat>, trail: seq<Stop>,
                     cached: seq<File>, faults: Faults)
    requires Walked(files, catalogs, base, requests, rest, trail, cached, faults) && faults.throws == map[]
    requires rest == [] ==> Gathered(requests, files, base + ReadBy(trail, faults))
    ensures var way := Way(catalogs, cached, faults.unlistable);
            && (!Whole(trail, faults) <==> Baulked(requests, files, base, way, faults, false))
            && (!Heard(trail, faults) <==> Baulked(requests, files, base, way, faults, true))
  {
    var way := Way(catalogs, cached, faults.unlistable);
    forall n: nat | n < |way| ensures n < |trail| <==> Awaited(requests, files, base, way, n, faults.refuses) {
      ComesTo(files, catalogs, base, requests, rest, trail, cached, faults, n);
    }
    FailedThere(requests, files, base, trail, way, faults, false);
    FailedThere(requests, files, base, trail, way, faults, true);
    FailedMeans(trail, faults);
  }

  lemma FailedMeans(trail: seq<Stop>, faults: Faults)
    ensures SomeFailed(trail, faults, false) <==> !Whole(trail, faults)
    ensures SomeFailed(trail, faults, true) <==> !Heard(trail, faults)
  {
  }

  lemma {:induction false} SpreadComesFrom(trail: seq<Stop>, f: File) returns (k: nat)
    requires f in Spread(trail)
    ensures k < |trail| && trail[k].place == Version(f) && trail[k].taken > 0
  {
    var init, last := trail[..|trail| - 1], trail[|trail| - 1];
    if f in Spread(init) { k := SpreadComesFrom(init, f); } else { k := |trail| - 1; }
  }

  /** A batch with nothing left took every key from an active version or from one it read. */
  lemma BatchGathered(s0: State, s: State, requests: seq<Request>, p: Progress, erased: seq<nat>, rest: seq<nat>, from: seq<File>,
                      trail: seq<Stop>, cached: seq<File>, faults: Faults)
    requires Batched(s0, s, requests, p, erased, rest, from) && rest == [] && faults.throws == map[]
    requires Traced(s0, requests, p, rest, from, trail, cached, faults)
    ensures Gathered(requests, s0.files, Actives(s0) + ReadBy(trail, faults))
  {
    forall w: nat | w < |requests| ensures !Unseen(requests[w].key, s0.files, Actives(s0) + ReadBy(trail, faults)) {
      NamesSplit(requests, erased, rest, requests[w].key);
      var i :| i in erased && i < |requests| && requests[i].key == requests[w].key;
      var j :| 0 <= j < |erased| && erased[j] == i;
      TakenWhere(s0, from, trail, faults, j);
      assert Stores(s0.files, from[j], requests[erased[j]].key);
    }
  }

  lemma TakenWhere(s0: State, from: seq<File>, trail: seq<Stop>, faults: Faults, j: nat)
    requires TakenAlong(s0, from, trail) && Honest(trail, faults) && faults.throws == map[] && j < |from|
    ensures from[j] in Actives(s0) + ReadBy(trail, faults)
  {
    var first := |from| - |Spread(trail)|;
    if j >= first {
      assert from[first..][j - first] == from[j];
      var k := SpreadComesFrom(trail, from[j]);
      assert !Fails(faults, trail[k]);
    }
  }

  /** The error of a batch of deletions, told without the walk: there exactly when some key was awaited at a version that
      did not open or at a catalogue that could not be listed, `catalog_unreadable` exactly when at such a catalogue. A
      batch that had found all its keys before answers no error. */
  lemma BatchErrorsExactly(s0: State, s: State, requests: seq<Request>, p: Progress, erased: seq<nat>, rest: seq<nat>, from: seq<File>,
                           trail: seq<Stop>, cached: seq<File>, faults: Faults)
    requires Batched(s0, s, requests, p, erased, rest, from) && faults.throws == map[]
    requires Traced(s0, requests, p, rest, from, trail, cached, faults)
    ensures var way := Way(s0.catalogs, cached, faults.unlistable);
            && (p.error.Some? <==> Baulked(requests, s0.files, Actives(s0), way, faults, false))
            && (p.error == Some(CatalogUnreadable) <==> Baulked(requests, s0.files, Actives(s0), way, faults, true))
            && (p.error.Some? ==> p.error == Some(CatalogUnreadable) || p.error == Some(VersionUnreadable))
  {
    if rest == [] { BatchGathered(s0, s, requests, p, erased, rest, from, trail, cached, faults); }
    FailsExactly(s0.files, s0.catalogs, Actives(s0), requests, rest, trail, cached, faults);
    HeardIfWhole(trail, faults);
  }

  lemma HeardIfWhole(trail: seq<Stop>, faults: Faults)
    ensures Whole(trail, faults) ==> Heard(trail, faults)
  {
  }

  /** And that of a resolution: it succeeds exactly when no key is awaited at a barred place. */
  lemma ResolutionErrorsExactly(s: State, requests: seq<Request>, r: Result<Resolved>, rest: seq<nat>, found: Table, trail: seq<Stop>,
                                cached: seq<File>, faults: Faults)
    requires Sought(s, requests, r, rest, found, trail, cached, faults) && faults.throws == map[]
    ensures var way := Way(s.catalogs, cached, faults.unlistable);
            && (r.Err? <==> Baulked(requests, s.files, {}, way, faults, false))
            && (r == Err(CatalogUnreadable) <==> Baulked(requests, s.files, {}, way, faults, true))
            && (r.Err? ==> r.error == CatalogUnreadable || r.error == VersionUnreadable)
  {
    if rest == [] {
      forall w: nat | w < |requests| ensures !Unseen(requests[w].key, s.files, {} + ReadBy(trail, faults)) {
        assert Names(requests, requests[w].key);
        var f :| f in ReadBy(trail, faults) && Stores(s.files, f, requests[w].key);
        assert f in {} + ReadBy(trail, faults);
      }
    }
    FailsExactly(s.files, s.catalogs, {}, requests, rest, trail, cached, faults);
    HeardIfWhole(trail, faults);
  }
}
