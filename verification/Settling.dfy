/**
  Recovery settles what a merge left: it never changes which entries count, it is
  idempotent, and cutting and rerunning it ends where an uninterrupted run does.
*/
module Settling {
  import opened Basics
  import opened Disk
  import opened Recovery
  import opened CrashSafety
  import opened Merge

  /** The entries that count are the same after every instruction of the trace. */
  ghost predicate KeepsEffect(view: View, trace: seq<Instr>)
    decreases |trace|
  {
    && RecordsOk(view)
    && (trace != [] ==>
          && Effective(ViewStep(view, trace[0])) == Effective(view)
          && KeepsEffect(ViewStep(view, trace[0]), trace[1..]))
  }

  lemma {:induction false} EffectAtEveryCut(view: View, trace: seq<Instr>, k: nat)
    requires KeepsEffect(view, trace) && k <= |trace|
    ensures RecordsOk(ViewExec(view, trace[..k]))
    ensures Effective(ViewExec(view, trace[..k])) == Effective(view)
    ensures KeepsEffect(ViewExec(view, trace[..k]), trace[k..])
    decreases |trace|
  {
    if k != 0 {
      assert trace[..k][0] == trace[0] && trace[..k][1..] == trace[1..][..k - 1];
      assert trace[k..] == trace[1..][k - 1..];
      EffectAtEveryCut(ViewStep(view, trace[0]), trace[1..], k - 1);
    } else {
      assert trace[k..] == trace;
    }
  }

  lemma {:induction false} KeepsEffectConcat(view: View, a: seq<Instr>, b: seq<Instr>)
    requires KeepsEffect(view, a) && KeepsEffect(ViewExec(view, a), b)
    ensures KeepsEffect(view, a + b)
    decreases |a|
  {
    if a == [] {
      assert a + b == b;
    } else {
      assert (a + b)[1..] == a[1..] + b;
      KeepsEffectConcat(ViewStep(view, a[0]), a[1..], b);
    }
  }

  lemma KeepsEffectCons(view: View, i: Instr, rest: seq<Instr>)
    requires RecordsOk(view) && Effective(ViewStep(view, i)) == Effective(view)
    requires KeepsEffect(ViewStep(view, i), rest)
    ensures KeepsEffect(view, [i] + rest)
  {
    assert ([i] + rest)[1..] == rest;
  }

  lemma ViewExecCons(view: View, i: Instr, rest: seq<Instr>)
    ensures ViewExec(view, [i] + rest) == ViewExec(ViewStep(view, i), rest)
  {
    assert ([i] + rest)[1..] == rest;
  }

  lemma HarmlessView(view: View, i: Instr)
    requires Harmless(i) || i.Barrier?
    ensures SameMeaning(view, ViewStep(view, i))
    ensures Effective(ViewStep(view, i)) == Effective(view)
    ensures RecordsOk(view) ==> RecordsOk(ViewStep(view, i))
  {
    var after := ViewStep(view, i);
    assert SameMeaning(view, after) by {
      match i
      case Create(name, content) =>
      case Unlink(name) =>
      case _ => assert after == view;
    }
    SameMeaningSameEffect(view, after);
  }

  lemma {:induction false} HarmlessEffect(view: View, trace: seq<Instr>)
    requires RecordsOk(view)
    requires forall i :: 0 <= i < |trace| ==> Harmless(trace[i]) || trace[i].Barrier?
    ensures KeepsEffect(view, trace)
    ensures SameMeaning(view, ViewExec(view, trace))
    decreases |trace|
  {
    if trace != [] {
      HarmlessView(view, trace[0]);
      HarmlessEffect(ViewStep(view, trace[0]), trace[1..]);
    }
  }

  lemma {:induction false} RetireEffect(view: View, t: nat, sources: seq<nat>)
    requires RecordsOk(view)
    requires forall s :: s in sources ==> SupersededBy(view, t, s)
    ensures KeepsEffect(view, Retire(sources, {}))
    decreases |sources|
  {
    if sources != [] {
      var s := sources[0];
      RetiringASource(view, t, s);
      forall x | x in sources[1..] ensures SupersededBy(view - {Data(s)}, t, x) {
        assert SupersededBy(view, t, x);
        assert s != t;
      }
      RetireEffect(view - {Data(s)}, t, sources[1..]);
      KeepsEffectCons(view, Unlink(Data(s)), Retire(sources[1..], {}));
    }
  }

  /** Abandoning an unpublished merge. */
  lemma AbandonSees(view: View, t: nat)
    ensures ViewExec(view, [Unlink(Building(t)), Unlink(Record(t)), Barrier]) == view - {Building(t)} - {Record(t)}
  {
    var v1 := view - {Building(t)};
    ViewExecCons(view, Unlink(Building(t)), [Unlink(Record(t)), Barrier]);
    ViewExecCons(v1, Unlink(Record(t)), [Barrier]);
    ViewExecCons(v1 - {Record(t)}, Barrier, []);
    assert [Unlink(Building(t))] + [Unlink(Record(t)), Barrier] == [Unlink(Building(t)), Unlink(Record(t)), Barrier];
    assert [Unlink(Record(t))] + [Barrier] == [Unlink(Record(t)), Barrier];
    assert [Barrier] + [] == [Barrier];
  }

  lemma AbandonKeeps(view: View, t: nat)
    requires RecordsOk(view) && Record(t) in view && Data(t) !in view
    ensures KeepsEffect(view, [Unlink(Building(t)), Unlink(Record(t)), Barrier])
    ensures Records(view - {Building(t)} - {Record(t)}) == {}
  {
    var v1 := view - {Building(t)};
    HarmlessView(view, Unlink(Building(t)));
    DroppingTheRecord(v1, t);
    var v2 := v1 - {Record(t)};
    HarmlessView(v2, Barrier);
    assert [Barrier] + [] == [Barrier];
    KeepsEffectCons(v2, Barrier, []);
    assert [Unlink(Record(t))] + [Barrier] == [Unlink(Record(t)), Barrier];
    KeepsEffectCons(v1, Unlink(Record(t)), [Barrier]);
    assert [Unlink(Building(t))] + [Unlink(Record(t)), Barrier] == [Unlink(Building(t)), Unlink(Record(t)), Barrier];
    KeepsEffectCons(view, Unlink(Building(t)), [Unlink(Record(t)), Barrier]);
    NoneLeft(view, t);
  }

  lemma NoneLeft(view: View, t: nat)
    requires RecordsOk(view) && Record(t) in view
    ensures Records(view - {Building(t)} - {Record(t)}) == {}
  {
    RecordsAreNamed(view - {Building(t)} - {Record(t)});
  }

  lemma AbandonEffect(view: View, t: nat)
    requires RecordsOk(view) && Record(t) in view && Data(t) !in view
    ensures KeepsEffect(view, [Unlink(Building(t)), Unlink(Record(t)), Barrier])
    ensures var v := ViewExec(view, [Unlink(Building(t)), Unlink(Record(t)), Barrier]);
            v == view - {Building(t)} - {Record(t)} && Records(v) == {}
  {
    AbandonSees(view, t);
    AbandonKeeps(view, t);
  }

  /** The end of a published merge, once its sources are gone. */
  lemma CloseEffect(view: View, t: nat)
    requires RecordsOk(view) && Record(t) in view
    requires forall s :: SupersededBy(view, t, s) ==> Data(s) !in view
    ensures KeepsEffect(view, [Barrier, Unlink(Record(t)), Unlink(Building(t)), Barrier])
    ensures var v := ViewExec(view, [Barrier, Unlink(Record(t)), Unlink(Building(t)), Barrier]);
            v == view - {Record(t)} - {Building(t)} && Records(v) == {}
  {
    var v1 := view - {Record(t)};
    DroppingTheRecord(view, t);
    var v2 := v1 - {Building(t)};
    HarmlessView(v1, Unlink(Building(t)));
    KeepsEffectCons(v2, Barrier, []);
    assert [Barrier] + [] == [Barrier];
    KeepsEffectCons(v1, Unlink(Building(t)), [Barrier]);
    var tail2 := [Unlink(Building(t)), Barrier];
    assert tail2 == [Unlink(Building(t))] + [Barrier];
    KeepsEffectCons(view, Unlink(Record(t)), tail2);
    var tail3 := [Unlink(Record(t)), Unlink(Building(t)), Barrier];
    assert tail3 == [Unlink(Record(t))] + tail2;
    KeepsEffectCons(view, Barrier, tail3);
    var trace := [Barrier, Unlink(Record(t)), Unlink(Building(t)), Barrier];
    assert trace == [Barrier] + tail3;
    ViewExecCons(view, Barrier, tail3);
    ViewExecCons(view, Unlink(Record(t)), tail2);
    ViewExecCons(v1, Unlink(Building(t)), [Barrier]);
    ViewExecCons(v2, Barrier, []);
    RecordsAreNamed(v2);
  }

  /** Finishing a published merge. */
  lemma FinishEffect(view: View, plan: Plan)
    requires RecordsOk(view) && Record(plan.target) in view && Data(plan.target) in view
    requires view[Record(plan.target)] == Sidecar(plan)
    ensures RecoverOne(view, plan).Some?
    ensures KeepsEffect(view, RecoverOne(view, plan).value)
    ensures Records(ViewExec(view, RecoverOne(view, plan).value)) == {}
  {
    var t := plan.target;
    var retire := Retire(plan.sources, {});
    var close := [Barrier, Unlink(Record(t)), Unlink(Building(t)), Barrier];
    RetireEffect(view, t, plan.sources);
    EffectAtEveryCut(view, retire, |retire|);
    assert retire[..|retire|] == retire;
    RetireSees(view, plan.sources, {});
    var v := ViewExec(view, retire);
    forall s | SupersededBy(v, t, s) ensures Data(s) !in v {
      assert v[Record(t)] == view[Record(t)];
      assert Data(s) in (set x | x in plan.sources && x !in {} :: Data(x));
    }
    CloseEffect(v, t);
    KeepsEffectConcat(view, retire, close);
    ViewExecConcat(view, retire, close);
  }

  lemma OneRecord(view: View)
    requires RecordsOk(view)
    ensures |Listed(Records(view))| <= 1
    ensures forall t: nat :: Record(t) in view ==> Listed(Records(view)) == [t]
  {
    RecordsAreNamed(view);
    if Records(view) != {} {
      var t :| t in Records(view);
      assert Records(view) == {t};
      assert Listed(Records(view))[0] == t by { assert Listed(Records(view))[0] in Records(view); }
    }
  }

  /** Recovery of a coherent directory refuses exactly when the record names more sources
      than a record may. */
  lemma RecoveryRuns(view: View)
    requires RecordsOk(view)
    ensures RecoveryTrace(view).Some? <==> NoWiderThan(view, MAX_SOURCES)
  {
    OneRecord(view);
    RecordsAreNamed(view);
    forall t | Record(t) in view ensures RecoverOne(view, view[Record(t)].plan).Some? {
      var plan := view[Record(t)].plan;
      assert Coherent(plan, t);
    }
    if Records(view) != {} {
      var t :| t in Records(view);
      assert Readable(view[Record(t)], t) <==> |view[Record(t)].plan.sources| <= MAX_SOURCES;
    }
  }

  lemma SettleEffect(view: View)
    requires RecordsOk(view) && SettleRecord(view).Some?
    ensures KeepsEffect(view, SettleRecord(view).value)
    ensures Records(ViewExec(view, SettleRecord(view).value)) == {}
  {
    OneRecord(view);
    RecordsAreNamed(view);
    if Records(view) != {} {
      var t := Listed(Records(view))[0];
      assert t in Records(view);
      var plan := view[Record(t)].plan;
      if Data(t) in view { FinishEffect(view, plan); } else { AbandonEffect(view, t); }
    }
  }

  lemma LessTwice(view: View, names: seq<Name>)
    requires names != []
    ensures view - {names[0]} - (set n | n in names[1..]) == view - (set n | n in names)
  {
    assert names == [names[0]] + names[1..];
    assert (set n | n in names) == {names[0]} + (set n | n in names[1..]);
  }

  lemma {:induction false} RemovalsSee(view: View, names: seq<Name>)
    ensures ViewExec(view, Removals(names)) == view - (set n | n in names)
    decreases |names|
  {
    if names == [] {
      assert view - (set n | n in names) == view;
    } else {
      assert Removals(names)[1..] == Removals(names[1..]);
      RemovalsSee(view - {names[0]}, names[1..]);
      LessTwice(view, names);
    }
  }

  lemma StraysAreMeaningless(view: View)
    ensures forall n :: n in Strays(view) <==> n in view && Meaningless(n)
  {
    forall n ensures n in Strays(view) <==> n in view && Meaningless(n) {
      assert n.Building? ==> (n.version in BuildVersions(view) <==> n in view);
      assert n.RecordTmp? ==> (n.version in TempVersions(view) <==> n in view);
    }
  }

  /** A directory with nothing in flight and nothing unfinished. */
  ghost predicate Settled(view: View) {
    RecordsOk(view) && Records(view) == {} && forall n :: n in view ==> !Meaningless(n)
  }

  /** Every cut of recovery keeps the entries that count; the whole of it leaves only them. */
  lemma RecoverySettles(view: View)
    requires RecordsOk(view) && RecoveryTrace(view).Some?
    ensures KeepsEffect(view, RecoveryTrace(view).value)
    ensures Settled(ViewExec(view, RecoveryTrace(view).value))
    ensures Tables(ViewExec(view, RecoveryTrace(view).value)) == Effective(view)
  {
    var settle := SettleRecord(view).value;
    SettleEffect(view);
    EffectAtEveryCut(view, settle, |settle|);
    assert settle[..|settle|] == settle;
    var v := ViewExec(view, settle);
    var sweep := Removals(Strays(v));
    StraysAreMeaningless(v);
    forall i | 0 <= i < |sweep| ensures Harmless(sweep[i]) { assert Strays(v)[i] in Strays(v); }
    HarmlessEffect(v, sweep);
    EffectAtEveryCut(v, sweep, |sweep|);
    assert sweep[..|sweep|] == sweep;
    KeepsEffectConcat(view, settle, sweep);
    ViewExecConcat(view, settle, sweep);
    RemovalsSee(v, Strays(v));
    SameMeaningSameEffect(v, ViewExec(v, sweep));
    SettledMeansAll(ViewExec(v, sweep));
  }

  /** Idempotence: a settled directory asks recovery for nothing. */
  lemma RecoveryIsIdempotent(view: View)
    requires Settled(view)
    ensures RecoveryTrace(view) == Some([])
  {
    assert BuildVersions(view) == {} && TempVersions(view) == {};
    assert ViewExec(view, []) == view;
  }

  /** Confluence: recovery cut anywhere and run again ends with the canonical files of an
      uninterrupted one, and can be run again whenever the uninterrupted one could. */
  lemma RecoveryIsConfluent(view: View, k: nat)
    requires RecordsOk(view) && RecoveryTrace(view).Some? && k <= |RecoveryTrace(view).value|
    ensures var cut := ViewExec(view, RecoveryTrace(view).value[..k]);
            && RecoveryTrace(cut).Some?
            && Settled(ViewExec(cut, RecoveryTrace(cut).value))
            && Tables(ViewExec(cut, RecoveryTrace(cut).value)) == Tables(ViewExec(view, RecoveryTrace(view).value))
  {
    var trace := RecoveryTrace(view).value;
    RecoverySettles(view);
    EffectAtEveryCut(view, trace, k);
    RecoveryRuns(view);
    var cut := ViewExec(view, trace[..k]);
    OnlyRemoves(view, trace[..k]);
    assert NoWiderThan(cut, MAX_SOURCES);
    RecoveryRuns(cut);
    RecoverySettles(cut);
  }

  predicate Removes(i: Instr) { i.Unlink? || i.Barrier? }

  lemma {:induction false} OnlyRemovesTrace(view: View, trace: seq<Instr>)
    requires forall i :: 0 <= i < |trace| ==> Removes(trace[i])
    ensures forall n :: n in ViewExec(view, trace) ==> n in view && view[n] == ViewExec(view, trace)[n]
    decreases |trace|
  {
    if trace != [] {
      OnlyRemovesTrace(ViewStep(view, trace[0]), trace[1..]);
    }
  }

  lemma {:induction false} RetireRemoves(sources: seq<nat>, stuck: set<nat>)
    ensures forall i :: 0 <= i < |Retire(sources, stuck)| ==> Removes(Retire(sources, stuck)[i])
  {
    if sources != [] { RetireRemoves(sources[1..], stuck); }
  }

  lemma SettleRemoves(view: View)
    requires SettleRecord(view).Some?
    ensures forall i :: 0 <= i < |SettleRecord(view).value| ==> Removes(SettleRecord(view).value[i])
  {
    var l := Listed(Records(view));
    if |l| == 1 {
      assert l[0] in Records(view);
      var plan := view[Record(l[0])].plan;
      RetireRemoves(plan.sources, {});
    }
  }

  predicate AllRemove(trace: seq<Instr>) {
    forall i :: 0 <= i < |trace| ==> Removes(trace[i])
  }

  lemma AllRemoveCut(a: seq<Instr>, b: seq<Instr>, cut: seq<Instr>)
    requires AllRemove(a) && AllRemove(b) && cut <= a + b
    ensures AllRemove(cut)
  {
    forall i | 0 <= i < |cut| ensures Removes(cut[i]) { assert cut[i] == (a + b)[i]; }
  }

  lemma OnlyRemoves(view: View, cut: seq<Instr>)
    requires RecoveryTrace(view).Some? && cut <= RecoveryTrace(view).value
    ensures forall n :: n in ViewExec(view, cut) ==> n in view && view[n] == ViewExec(view, cut)[n]
  {
    SettleRemoves(view);
    var settle := SettleRecord(view).value;
    var sweep := Removals(Strays(ViewExec(view, settle)));
    AllRemoveCut(settle, sweep, cut);
    OnlyRemovesTrace(view, cut);
  }
}
