/** Manual corrections: merging and splitting, the pointers from merged assets to their
survivors, and what a whole history keeps. */
module AssetCorrections {
  import opened Basics
  import opened AssetIdentity
  import H = AssetHistory

  // ---- following the survivors

  /** Every asset is still there in the same state. */
  ghost predicate StatesKept(before: map<AssetId, Asset>, after: map<AssetId, Asset>) {
    forall a :: a in before ==> a in after && after[a].state == before[a].state
  }

  lemma {:induction false} ReachesKept(before: map<AssetId, Asset>, after: map<AssetId, Asset>, a: AssetId, n: nat)
    requires StatesKept(before, after) && ReachesIn(before, a, n)
    ensures ReachesIn(after, a, n)
    decreases n
  {
    if before[a].state.Merged? {
      ReachesKept(before, after, before[a].state.into, n - 1);
    }
  }

  lemma AllReach(before: map<AssetId, Asset>, after: map<AssetId, Asset>)
    requires StatesKept(before, after)
    requires forall a :: a in before ==> Reaches(before, a)
    requires forall a :: a in after && a !in before ==> after[a].state.Active?
    ensures forall a :: a in after ==> Reaches(after, a)
  {
    forall a | a in after
      ensures Reaches(after, a)
    {
      if a in before {
        var n: nat :| ReachesIn(before, a, n);
        ReachesKept(before, after, a, n);
      } else {
        assert ReachesIn(after, a, 0);
      }
    }
  }

  /** A chain that ended at one of the merged assets goes one step further; no other changes. */
  lemma {:induction false} ReachesMerged(assets: map<AssetId, Asset>, from: seq<AssetId>, to: AssetId,
                                                a: AssetId, n: nat)
    requires ReachesIn(assets, a, n) && IsActive(assets, to) && to !in from
    requires forall b :: b in from ==> IsActive(assets, b)
    ensures Reaches(MarkMerged(assets, from, to), a)
    decreases n
  {
    var after := MarkMerged(assets, from, to);
    if assets[a].state.Merged? {
      ReachesMerged(assets, from, to, assets[a].state.into, n - 1);
      var m: nat :| ReachesIn(after, assets[a].state.into, m);
      assert ReachesIn(after, a, m + 1);
    } else {
      assert ReachesIn(after, to, 0);
      assert if a in from then ReachesIn(after, a, 1) else ReachesIn(after, a, 0);
    }
  }

  lemma {:induction false} SelfMergedReachesNothing(assets: map<AssetId, Asset>, a: AssetId, n: nat)
    requires a in assets && assets[a].state == Merged(a)
    ensures !ReachesIn(assets, a, n)
    decreases n
  {
    if n > 0 {
      SelfMergedReachesNothing(assets, a, n - 1);
    }
  }

  // ---- what each transaction keeps

  lemma ObservedAssets(db: Db, obs: Observation, lower: string -> string, newId: AssetId)
    requires Consistent(db)
    ensures var after := Observe(db, obs, lower, newId);
      && StatesKept(db.assets, after.assets)
      && (forall a :: a in after.assets && a !in db.assets ==> after.assets[a].state.Active?)
      && (forall a :: a in db.assets && !IsActive(db.assets, a) ==> after.assets[a] == db.assets[a])
      && (after == db || IsActive(after.assets, H.Target(db, obs, lower, newId)))
      && after.pins == db.pins && after.devices == db.devices
  {
    hide Resolve, Identifiers, Reaches, Bind;
    H.ResolvesToCandidate(db, obs.deviceId, Identifiers(obs, lower));
  }

  lemma ObserveKeeps(db: Db, obs: Observation, lower: string -> string, newId: AssetId)
    requires Consistent(db)
    ensures Consistent(Observe(db, obs, lower, newId))
    ensures forall a :: a in db.assets && !IsActive(db.assets, a) ==>
              a in Observe(db, obs, lower, newId).assets && Observe(db, obs, lower, newId).assets[a] == db.assets[a]
  {
    hide Observe, Identifiers, Reaches, H.Target, Coherent;
    var after := Observe(db, obs, lower, newId);
    ObservedAssets(db, obs, lower, newId);
    H.ObserveKeepsCoherent(db, obs, lower, newId);
    H.NewBindings(db, obs, lower, newId);
    AllReach(db.assets, after.assets);
  }

  /** What consistency asks of the bindings, apart from the pins and the chains. */
  ghost predicate Bound(db: Db) {
    && (forall i :: i in db.identities ==> IsActive(db.assets, db.identities[i]))
    && (forall d :: d in db.devices ==> Ident(DeviceId, d) in db.identities
                                        && db.identities[Ident(DeviceId, d)] == db.devices[d])
  }

  lemma EnrollKeeps(db: Db, suffix: string, newId: AssetId, now: int)
    requires Consistent(db) && Enroll(db, suffix, newId, now).Ok?
    ensures Consistent(Enroll(db, suffix, newId, now).value)
  {
    hide Reaches;
    var after := Enroll(db, suffix, newId, now).value;
    assert Bound(after) by { hide Coherent; }
    assert Coherent(after) by { hide IsActive; }
    AllReach(db.assets, after.assets);
  }

  lemma SplitKeeps(db: Db, rows: set<Ident>, newId: AssetId, seen: int)
    requires Consistent(db) && newId !in db.assets && rows <= db.identities.Keys
    ensures Consistent(Split(db, rows, newId, seen))
  {
    hide Reaches;
    var after := Split(db, rows, newId, seen);
    assert Bound(after) by { hide Coherent; }
    assert Coherent(after) by { hide IsActive; }
    AllReach(db.assets, after.assets);
  }

  lemma MergeKeepsChains(db: Db, ids: seq<AssetId>)
    requires Consistent(db) && ids != [] && MergeError(db.assets, ids).None? && ids[0] !in ids[1..]
    ensures forall a :: a in db.assets ==> Reaches(Merge(db, ids).assets, a)
  {
    hide Coherent, Latest;
    ActiveAll(db.assets, ids);
    var touched := Touch(db.assets, ids[0], Latest(db.assets, ids));
    assert forall a :: a in ids ==> IsActive(touched, a);
    forall a | a in db.assets
      ensures Reaches(Merge(db, ids).assets, a)
    {
      var n: nat :| ReachesIn(db.assets, a, n);
      ReachesKept(db.assets, touched, a, n);
      ReachesMerged(touched, ids[1..], ids[0], a, n);
    }
  }

  lemma MergeKeeps(db: Db, ids: seq<AssetId>)
    requires Consistent(db) && ids != [] && MergeError(db.assets, ids).None? && ids[0] !in ids[1..]
    ensures Consistent(Merge(db, ids))
  {
    hide Reaches, Latest;
    ActiveAll(db.assets, ids);
    H.MergeKeepsCoherent(db, ids);
    MergeKeepsChains(db, ids);
  }

  /** Merging keeps the tables consistent exactly when the survivor is not listed again among
  the others.  The request only removes equal texts, and one id has several texts. */
  lemma MergeKeepsIffApart(db: Db, ids: seq<AssetId>)
    requires Consistent(db) && ids != [] && MergeError(db.assets, ids).None?
    ensures Consistent(Merge(db, ids)) <==> ids[0] !in ids[1..]
  {
    hide Coherent, Latest;
    if ids[0] !in ids[1..] {
      MergeKeeps(db, ids);
    } else {
      ActiveAll(db.assets, ids);
      var after := Merge(db, ids);
      assert after.assets[ids[0]].state == Merged(ids[0]);
      forall n: nat
        ensures !ReachesIn(after.assets, ids[0], n)
      {
        SelfMergedReachesNothing(after.assets, ids[0], n);
      }
      assert ids[0] in after.assets && !Reaches(after.assets, ids[0]);
    }
  }

  lemma OneText<T>(parse: string -> Option<T>, s: string)
    requires parse(s).Some?
    ensures FirstOccurrences([s]) == [s]
    ensures ParseAll(parse, [s]) == Some([parse(s).value])
  {
    assert [s][..0] == [];
    assert ParseAll(parse, []) == Some([]);
    assert [] + [parse(s).value] == [parse(s).value];
  }

  lemma TwoTexts<T>(parse: string -> Option<T>, s: string, t: string)
    requires s != t && parse(s).Some? && parse(t).Some?
    ensures FirstOccurrences([s, t]) == [s, t]
    ensures ParseAll(parse, [s, t]) == Some([parse(s).value, parse(t).value])
  {
    OneText(parse, s);
    assert [s, t][..1] == [s];
    assert [parse(s).value] + [parse(t).value] == [parse(s).value, parse(t).value];
    assert [s] + [t] == [s, t];
  }

  /** Two spellings of one id merge the asset into itself: the request succeeds, and the asset
  is marked as merged into itself with its identifiers still bound to it. */
  lemma SelfMergeBreaks(env: Env, db: Db, s: string, t: string, a: AssetId)
    requires Consistent(db) && IsActive(db.assets, a)
    requires s != t && env.assetOf(s) == Some(a) && env.assetOf(t) == Some(a)
    ensures var r := MergeRequest(env, db, [s, t]);
      && r.Ok? && !Consistent(r.value) && a in r.value.assets && r.value.assets[a].state == Merged(a)
      && forall i :: i in db.identities && db.identities[i] == a ==>
           i in r.value.identities && r.value.identities[i] == a
  {
    hide Consistent, Latest, FirstOccurrences, ParseAll;
    TwoTexts(env.assetOf, s, t);
    var ids := [a, a];
    assert ids[1..] == [a];
    ActiveAll(db.assets, ids);
    MergeKeepsIffApart(db, ids);
  }

  // ---- whole histories

  /** The request does not name its survivor twice. */
  ghost predicate Apart(env: Env, step: H.Step) {
    step.Merged? ==>
      var ids := ParseAll(env.assetOf, FirstOccurrences(step.texts));
      ids.Some? && ids.value != [] ==> ids.value[0] !in ids.value[1..]
  }

  ghost predicate MergedRowsKept(before: Db, after: Db) {
    forall a :: a in before.assets && !IsActive(before.assets, a) ==>
      a in after.assets && after.assets[a] == before.assets[a]
  }

  lemma ApplyKeeps(env: Env, db: Db, step: H.Step)
    requires Consistent(db) && Apart(env, step)
    ensures Consistent(H.Apply(env, db, step))
    ensures MergedRowsKept(db, H.Apply(env, db, step))
  {
    hide Consistent, ParseAll, FirstOccurrences, Observe;
    match step {
      case Observed(obs, newId) =>
        ObserveKeeps(db, obs, env.lower, newId);
      case Enrolled(suffix, newId, now) =>
        if Enroll(db, suffix, newId, now).Ok? {
          EnrollKeeps(db, suffix, newId, now);
        }
      case Merged(texts) =>
        var ids := ParseAll(env.assetOf, FirstOccurrences(texts));
        if ids.Some? && |ids.value| >= 2 && MergeError(db.assets, ids.value).None? {
          MergeKeeps(db, ids.value);
          ActiveAll(db.assets, ids.value);
        }
      case Split(asset, texts, newId, seen) =>
        var r := SplitRequest(env, db, asset, texts, newId, seen);
        if r.Ok? {
          var chosen := ParseAll(env.identityOf, FirstOccurrences(texts)).value;
          SplitKeeps(db, RowsOf(db, env.assetOf(asset).value, chosen), newId, seen);
        }
    }
  }

  /** Over every history in which no merge names its survivor twice: pins hold, bindings and
  pins point to active assets, devices agree with their identities, following the survivors
  ends at an active asset, and an asset that was merged away never changes again. */
  lemma {:induction false} RunKeeps(env: Env, db: Db, steps: seq<H.Step>)
    requires Consistent(db) && forall step :: step in steps ==> Apart(env, step)
    ensures Consistent(H.Run(env, db, steps))
    ensures MergedRowsKept(db, H.Run(env, db, steps))
  {
    hide Consistent, Apart;
    if steps != [] {
      var init, step := steps[..|steps| - 1], steps[|steps| - 1];
      assert step in steps;
      RunKeeps(env, db, init);
      ApplyKeeps(env, H.Run(env, db, init), step);
      assert forall a :: a in db.assets && !IsActive(db.assets, a) ==> !IsActive(H.Run(env, db, init).assets, a);
    }
  }

  lemma EmptyIsConsistent()
    ensures Consistent(EMPTY)
  {
  }

  // ---- merging and splitting apart again

  /** The two tables group the identifiers in the same way. */
  ghost predicate SameGroups(m: map<Ident, AssetId>, n: map<Ident, AssetId>) {
    m.Keys == n.Keys && forall i, j :: i in m && j in m ==> (m[i] == m[j] <==> n[i] == n[j])
  }

  /** Splitting out exactly the identifiers a merge moved restores the earlier grouping, the
  merged asset being replaced by the new one, for identifiers and for devices. */
  lemma {:induction false} SplitUndoesMerge(db: Db, survivor: AssetId, other: AssetId, newId: AssetId, seen: int)
    requires Consistent(db) && survivor != other && newId !in db.assets
    requires IsActive(db.assets, survivor) && IsActive(db.assets, other)
    ensures MergeError(db.assets, [survivor, other]).None?
    ensures var after := Split(Merge(db, [survivor, other]), RowsOfAny(db.identities, [other]), newId, seen);
      && after.identities == Redirect(db.identities, [other], newId)
      && after.devices == Redirect(db.devices, [other], newId)
      && SameGroups(db.identities, after.identities)
  {
    hide Consistent, Latest, Touch, MarkMerged, PinTo, SameGroups;
    var ids := [survivor, other];
    ActiveAll(db.assets, ids);
    assert ids[1..] == [other] && ids[0] == survivor;
    RedirectTwice(db, survivor, other, newId);
    RenamedGroups(db, other, newId);
  }

  lemma RedirectTwice(db: Db, survivor: AssetId, other: AssetId, newId: AssetId)
    requires Consistent(db)
    ensures var merged := Redirect(db.identities, [other], survivor);
      Redirect(db.identities, [other], newId)
        == map i | i in merged :: if i in RowsOfAny(db.identities, [other]) then newId else merged[i]
    ensures var merged := Redirect(db.devices, [other], survivor);
      Redirect(db.devices, [other], newId)
        == map d | d in merged :: if Ident(DeviceId, d) in RowsOfAny(db.identities, [other]) then newId else merged[d]
  {
    hide Reaches, IsActive, Coherent;
  }

  lemma RenamedGroups(db: Db, other: AssetId, newId: AssetId)
    requires Consistent(db) && newId !in db.assets
    ensures SameGroups(db.identities, Redirect(db.identities, [other], newId))
  {
    hide Reaches, Coherent;
    assert forall i :: i in db.identities ==> db.identities[i] != newId;
  }

  lemma SetSize<T>(chosen: seq<T>, members: set<T>)
    requires forall x :: x in members <==> x in chosen
    ensures |members| <= |chosen|
  {
    if chosen != [] {
      var init, last := chosen[..|chosen| - 1], chosen[|chosen| - 1];
      var rest := set x | x in init;
      SetSize(init, rest);
      assert members == rest + {last};
    } else {
      assert members == {};
    }
  }

  /** A split goes through exactly when the request names distinct rows of one active asset. */
  lemma {:induction false} SplitAcceptsIff(env: Env, db: Db, asset: string, texts: seq<string>, newId: AssetId,
                                                  seen: int)
    requires newId !in db.assets
    ensures SplitRequest(env, db, asset, texts, newId, seen).Ok? <==>
      && 1 <= |texts| <= 50
      && env.assetOf(asset).Some? && IsActive(db.assets, env.assetOf(asset).value)
      && var chosen := ParseAll(env.identityOf, FirstOccurrences(texts));
         chosen.Some? && DistinctRows(db, env.assetOf(asset).value, chosen.value)
  {
    hide FirstOccurrences, ParseAll;
    var chosen := ParseAll(env.identityOf, FirstOccurrences(texts));
    if env.assetOf(asset).Some? && chosen.Some? {
      CountsIff(db, env.assetOf(asset).value, chosen.value);
    }
  }

  ghost predicate DistinctRows(db: Db, a: AssetId, chosen: seq<Ident>) {
    && (forall i :: i in chosen ==> i in db.identities && db.identities[i] == a)
    && (forall j, k :: 0 <= j < k < |chosen| ==> chosen[j] != chosen[k])
  }

  lemma CountsIff(db: Db, a: AssetId, chosen: seq<Ident>)
    ensures |RowsOf(db, a, chosen)| == |chosen| <==> DistinctRows(db, a, chosen)
  {
    hide RowsOf, DistinctRows;
    if chosen == [] {
      CountsNone(db, a, chosen);
    } else {
      var init, last := chosen[..|chosen| - 1], chosen[|chosen| - 1];
      CountsIff(db, a, init);
      assert chosen == init + [last];
      RowsAtMost(db, a, init);
      OneMoreRow(db, a, init, last);
    }
  }

  lemma CountsNone(db: Db, a: AssetId, none: seq<Ident>)
    requires none == []
    ensures RowsOf(db, a, none) == {} && DistinctRows(db, a, none)
  {
  }

  lemma OneMoreRow(db: Db, a: AssetId, init: seq<Ident>, last: Ident)
    ensures var good := last in db.identities && db.identities[last] == a && last !in init;
      && |RowsOf(db, a, init + [last])| == |RowsOf(db, a, init)| + (if good then 1 else 0)
      && (DistinctRows(db, a, init + [last]) <==> DistinctRows(db, a, init) && good)
  {
    var now := init + [last];
    assert forall i :: i in now <==> i in init || i == last;
    assert forall k :: 0 <= k < |init| ==> now[k] == init[k];
    assert now[|init|] == last;
    if last in db.identities && db.identities[last] == a {
      assert RowsOf(db, a, now) == RowsOf(db, a, init) + {last};
    } else {
      assert RowsOf(db, a, now) == RowsOf(db, a, init);
    }
  }

  lemma RowsAtMost(db: Db, a: AssetId, chosen: seq<Ident>)
    ensures |RowsOf(db, a, chosen)| <= |chosen|
  {
    var all := set i | i in chosen;
    SetSize(chosen, all);
    SubsetSize(RowsOf(db, a, chosen), all);
  }
}
