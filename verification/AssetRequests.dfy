/** What a merge or split request does, told by the texts in it. */
module AssetRequests {
  import opened Basics
  import opened AssetIdentity
  import C = AssetCorrections

  // ---- lists of texts

  lemma {:induction false} OccurrencesKeep(texts: seq<string>)
    ensures forall t :: t in FirstOccurrences(texts) <==> t in texts
    ensures var first := FirstOccurrences(texts);
      forall i, j :: 0 <= i < j < |first| ==> first[i] != first[j]
    ensures texts != [] ==> FirstOccurrences(texts) != [] && FirstOccurrences(texts)[0] == texts[0]
    ensures |FirstOccurrences(texts)| <= |texts|
  {
    if texts != [] {
      var init, last := texts[..|texts| - 1], texts[|texts| - 1];
      OccurrencesKeep(init);
      assert texts == init + [last];
    }
  }

  lemma {:induction false} ParsedAre<T>(parse: string -> Option<T>, texts: seq<string>)
    ensures ParseAll(parse, texts).Some? <==> forall t :: t in texts ==> parse(t).Some?
    ensures ParseAll(parse, texts).Some? ==>
      && |ParseAll(parse, texts).value| == |texts|
      && forall i :: 0 <= i < |texts| ==> parse(texts[i]) == Some(ParseAll(parse, texts).value[i])
  {
    if texts != [] {
      var init, last := texts[..|texts| - 1], texts[|texts| - 1];
      ParsedAre(parse, init);
      assert texts == init + [last];
      if ParseAll(parse, texts).Some? {
        forall i | 0 <= i < |texts|
          ensures parse(texts[i]) == Some(ParseAll(parse, texts).value[i])
        {
          if i < |init| { assert init[i] == texts[i]; }
        }
      }
    }
  }

  /** The assets that the texts after the first different one stand for. */
  ghost predicate Named(env: Env, texts: seq<string>, a: AssetId) {
    exists t :: t in texts && t != texts[0] && env.assetOf(t) == Some(a)
  }

  ghost predicate AllNamed(env: Env, db: Db, texts: seq<string>) {
    forall t :: t in texts ==> env.assetOf(t).Some? && IsActive(db.assets, env.assetOf(t).value)
  }

  /** The different texts of a list, with the ids they stand for. */
  ghost predicate Reads(env: Env, texts: seq<string>, first: seq<string>, ids: seq<AssetId>) {
    && |ids| == |first| > 0 && texts != [] && first[0] == texts[0]
    && (forall t :: t in first <==> t in texts)
    && (forall i, j :: 0 <= i < j < |first| ==> first[i] != first[j])
    && (forall i :: 0 <= i < |first| ==> env.assetOf(first[i]) == Some(ids[i]))
  }

  lemma TailNamed(env: Env, texts: seq<string>, first: seq<string>, ids: seq<AssetId>, a: AssetId)
    requires Reads(env, texts, first, ids)
    ensures a in ids[1..] <==> Named(env, texts, a)
  {
    if a in ids[1..] {
      var i :| 0 <= i < |ids[1..]| && ids[1..][i] == a;
      assert ids[i + 1] == a && first[0] != first[i + 1] && first[i + 1] in first;
    }
    if Named(env, texts, a) {
      var t :| t in texts && t != texts[0] && env.assetOf(t) == Some(a);
      var i :| 0 <= i < |first| && first[i] == t;
      assert ids[1..][i - 1] == a;
    }
  }

  lemma SeveralTexts(env: Env, texts: seq<string>, first: seq<string>, ids: seq<AssetId>)
    requires Reads(env, texts, first, ids)
    ensures |ids| >= 2 <==> exists t :: t in texts && t != texts[0]
  {
    if |ids| >= 2 {
      assert first[1] in first && first[1] != texts[0];
    }
    if t :| t in texts && t != texts[0] {
      assert t in first;
    }
  }

  lemma AllActive(env: Env, db: Db, texts: seq<string>, first: seq<string>, ids: seq<AssetId>)
    requires Reads(env, texts, first, ids)
    ensures MergeError(db.assets, ids).None? <==> AllNamed(env, db, texts)
  {
    ActiveAll(db.assets, ids);
    hide MergeError, IsActive;
    if AllNamed(env, db, texts) {
      forall a | a in ids ensures IsActive(db.assets, a) {
        var i :| 0 <= i < |ids| && ids[i] == a;
        assert first[i] in first;
      }
    }
    if forall a :: a in ids ==> IsActive(db.assets, a) {
      forall t | t in texts ensures env.assetOf(t).Some? && IsActive(db.assets, env.assetOf(t).value) {
        var i :| 0 <= i < |first| && first[i] == t;
        assert ids[i] in ids;
      }
    }
  }

  /** The first id of a merge request is the first text's, the others are those of the other texts. */
  lemma MergeIds(env: Env, texts: seq<string>)
    requires texts != []
    ensures var first := FirstOccurrences(texts); var ids := ParseAll(env.assetOf, first);
      if ids.Some? then Reads(env, texts, first, ids.value)
      else exists t :: t in texts && env.assetOf(t).None?
  {
    OccurrencesKeep(texts);
    ParsedAre(env.assetOf, FirstOccurrences(texts));
  }

  /** A merge is accepted exactly for 2 to 50 texts, not all the same, of active assets. */
  lemma {:induction false} MergeAcceptsIff(env: Env, db: Db, texts: seq<string>)
    ensures MergeRequest(env, db, texts).Ok? <==>
      2 <= |texts| <= 50 && AllNamed(env, db, texts) && exists t :: t in texts && t != texts[0]
  {
    if 2 <= |texts| <= 50 {
      MergeIds(env, texts);
      var first := FirstOccurrences(texts);
      hide FirstOccurrences, ParseAll, Reads, MergeError;
      if ParseAll(env.assetOf, first).Some? {
        var ids := ParseAll(env.assetOf, first).value;
        SeveralTexts(env, texts, first, ids);
        AllActive(env, db, texts, first, ids);
      }
    }
  }

  /** What belonged to one of the assets that are gone belongs to the survivor. */
  ghost predicate Redirected<K(!new)>(before: map<K, AssetId>, after: map<K, AssetId>, to: AssetId,
                                      gone: iset<AssetId>)
  {
    && after.Keys == before.Keys
    && forall k :: k in before ==> after[k] == if before[k] in gone then to else before[k]
  }

  /** The identifiers that moved are pinned to the survivor. */
  ghost predicate Pinned(db: Db, after: map<Ident, AssetId>, to: AssetId, gone: iset<AssetId>) {
    && (forall i :: i in after <==> i in db.pins || (i in db.identities && db.identities[i] in gone))
    && (forall i :: i in after ==>
          after[i] == if i in db.identities && db.identities[i] in gone then to else db.pins[i])
  }

  ghost predicate PointTo(before: map<AssetId, Asset>, after: map<AssetId, Asset>, to: AssetId, gone: iset<AssetId>) {
    && after.Keys == before.Keys
    && forall a :: a in before && a != to ==>
         after[a] == if a in gone then before[a].(state := AssetState.Merged(to)) else before[a]
  }

  /** What moves in a merge: every identifier, pin and device of the merged assets goes to the
  survivor, the identifiers for good, and the merged assets point to it.  Of all else only the
  survivor changes. */
  ghost predicate MovesTo(db: Db, after: Db, to: AssetId, gone: iset<AssetId>) {
    && Redirected(db.identities, after.identities, to, gone) && Redirected(db.devices, after.devices, to, gone)
    && Pinned(db, after.pins, to, gone) && PointTo(db.assets, after.assets, to, gone)
  }

  ghost predicate LatestOf(db: Db, seen: int, to: AssetId, gone: iset<AssetId>) {
    && (forall a :: a in db.assets && (a == to || a in gone) ==> db.assets[a].lastSeen <= seen)
    && exists a :: a in db.assets && (a == to || a in gone) && db.assets[a].lastSeen == seen
  }

  lemma {:induction false} LatestIs(assets: map<AssetId, Asset>, ids: seq<AssetId>)
    requires ids != [] && forall a :: a in ids ==> a in assets
    ensures forall a :: a in ids ==> assets[a].lastSeen <= Latest(assets, ids)
    ensures exists a :: a in ids && assets[a].lastSeen == Latest(assets, ids)
  {
    var init, last := ids[..|ids| - 1], ids[|ids| - 1];
    assert ids == init + [last] && last in ids;
    if |ids| > 1 {
      LatestIs(assets, init);
      var a :| a in init && assets[a].lastSeen == Latest(assets, init);
      assert a in ids;
    }
  }

  lemma MergeMoves(db: Db, ids: seq<AssetId>, gone: iset<AssetId>)
    requires ids != [] && MergeError(db.assets, ids).None? && ids[0] !in ids[1..]
    requires forall a: AssetId :: a in ids[1..] <==> a in gone
    ensures MovesTo(db, Merge(db, ids), ids[0], gone)
  {
    var after := Merge(db, ids);
    MergedPointTo(db, ids, gone);
    PinsMoved(db, ids[1..], ids[0], gone);
    RedirectIs(db.identities, ids[1..], ids[0], gone);
    RedirectIs(db.devices, ids[1..], ids[0], gone);
    hide Redirected, Pinned, PointTo, MergeError, Latest, Redirect, PinTo, RowsOfAny, MarkMerged, Touch;
    assert after.identities == Redirect(db.identities, ids[1..], ids[0]);
  }

  lemma MergedPointTo(db: Db, ids: seq<AssetId>, gone: iset<AssetId>)
    requires ids != [] && MergeError(db.assets, ids).None? && ids[0] !in ids[1..]
    requires forall a: AssetId :: a in ids[1..] <==> a in gone
    ensures PointTo(db.assets, Merge(db, ids).assets, ids[0], gone)
  {
    MergedAssets(db, ids);
    hide MergeError, Merge, Latest;
  }

  lemma MergeSeen(db: Db, ids: seq<AssetId>, gone: iset<AssetId>)
    requires ids != [] && MergeError(db.assets, ids).None? && ids[0] !in ids[1..]
    requires forall a: AssetId :: a in ids[1..] <==> a in gone
    ensures var after := Merge(db, ids).assets;
      && ids[0] in after && after[ids[0]].state.Active?
      && LatestOf(db, after[ids[0]].lastSeen, ids[0], gone)
  {
    MergedAssets(db, ids);
    hide MergeError, Latest, Merge;
    LatestIs(db.assets, ids);
    assert ids[0] in ids && forall a :: a in ids <==> a == ids[0] || a in ids[1..];
  }

  lemma RedirectIs<K(!new)>(m: map<K, AssetId>, from: seq<AssetId>, to: AssetId, gone: iset<AssetId>)
    requires forall a: AssetId :: a in from <==> a in gone
    ensures Redirected(m, Redirect(m, from, to), to, gone)
  {
  }

  lemma PinsMoved(db: Db, from: seq<AssetId>, to: AssetId, gone: iset<AssetId>)
    requires forall a: AssetId :: a in from <==> a in gone
    ensures Pinned(db, PinTo(db.pins, RowsOfAny(db.identities, from), to), to, gone)
  {
  }

  lemma MergedAssets(db: Db, ids: seq<AssetId>)
    requires ids != [] && MergeError(db.assets, ids).None? && ids[0] !in ids[1..]
    ensures var after := Merge(db, ids).assets;
      && (forall a :: a in ids ==> a in db.assets) && ids[0] in after
      && after.Keys == db.assets.Keys
      && (forall a :: a in db.assets && a != ids[0] ==>
            after[a] == if a in ids[1..] then db.assets[a].(state := AssetState.Merged(ids[0])) else db.assets[a])
      && after[ids[0]] == Asset(Active, Max(db.assets[ids[0]].lastSeen, Latest(db.assets, ids)))
  {
    ActiveAll(db.assets, ids);
    assert ids[0] in ids && forall a :: a in ids[1..] ==> a in ids;
    hide MergeError, Latest, Redirect, PinTo, RowsOfAny;
  }

  /** An accepted merge whose survivor's text is the only one for it moves what the other texts stand
  for to the asset of the first. */
  lemma {:induction false} MergeMovesNamed(env: Env, db: Db, texts: seq<string>)
    requires MergeRequest(env, db, texts).Ok? && env.assetOf(texts[0]).Some?
    requires !Named(env, texts, env.assetOf(texts[0]).value)
    ensures var to, gone := env.assetOf(texts[0]).value, iset a: AssetId | Named(env, texts, a);
      var after := MergeRequest(env, db, texts).value;
      && MovesTo(db, after, to, gone)
      && to in after.assets && after.assets[to].state.Active?
      && LatestOf(db, after.assets[to].lastSeen, to, gone)
  {
    MergeIds(env, texts);
    var first := FirstOccurrences(texts);
    var ids := ParseAll(env.assetOf, first).value;
    var gone := iset a: AssetId | Named(env, texts, a);
    assert env.assetOf(texts[0]) == Some(ids[0]);
    forall a: AssetId ensures a in ids[1..] <==> a in gone { TailNamed(env, texts, first, ids, a); }
    hide FirstOccurrences, ParseAll, Reads, MergeError, Merge, Named, MovesTo, LatestOf;
    MergeMoves(db, ids, gone);
    MergeSeen(db, ids, gone);
    ActiveAll(db.assets, ids);
  }

  // ---- splitting

  ghost predicate Chosen(env: Env, texts: seq<string>, i: Ident) {
    exists t :: t in texts && env.identityOf(t) == Some(i)
  }

  lemma SplitIds(env: Env, texts: seq<string>, i: Ident)
    requires ParseAll(env.identityOf, FirstOccurrences(texts)).Some?
    ensures i in ParseAll(env.identityOf, FirstOccurrences(texts)).value <==> Chosen(env, texts, i)
  {
    var first := FirstOccurrences(texts);
    OccurrencesKeep(texts);
    ParsedAre(env.identityOf, first);
    hide FirstOccurrences, ParseAll;
    var ids := ParseAll(env.identityOf, first).value;
    if i in ids {
      var k :| 0 <= k < |ids| && ids[k] == i;
      assert first[k] in texts;
    }
    if t :| t in texts && env.identityOf(t) == Some(i) {
      var k :| 0 <= k < |first| && first[k] == t;
      assert ids[k] == i;
    }
  }

  /** An accepted split moves exactly the identifiers named, all of which were the asset's, to a new
  active asset, pins them there, and takes along the devices among them. */
  lemma {:induction false} SplitMovesNamed(env: Env, db: Db, asset: string, texts: seq<string>, newId: AssetId,
                                           seen: int)
    requires SplitRequest(env, db, asset, texts, newId, seen).Ok?
    ensures var after := SplitRequest(env, db, asset, texts, newId, seen).value;
      && (forall i :: Chosen(env, texts, i) ==> i in db.identities && Some(db.identities[i]) == env.assetOf(asset))
      && after.identities.Keys == db.identities.Keys && after.devices.Keys == db.devices.Keys
      && (forall i :: i in db.identities ==>
            after.identities[i] == if Chosen(env, texts, i) then newId else db.identities[i])
      && (forall d :: d in db.devices ==>
            after.devices[d] == if Chosen(env, texts, Ident(DeviceId, d)) then newId else db.devices[d])
      && (forall i :: i in after.pins <==> i in db.pins || Chosen(env, texts, i))
      && (forall i :: i in after.pins ==> after.pins[i] == if Chosen(env, texts, i) then newId else db.pins[i])
      && newId !in db.assets && after.assets == db.assets[newId := Asset(Active, seen)]
  {
    var a, chosen := env.assetOf(asset).value, ParseAll(env.identityOf, FirstOccurrences(texts)).value;
    C.CountsIff(db, a, chosen);
    forall i ensures i in chosen <==> Chosen(env, texts, i) { SplitIds(env, texts, i); }
    hide FirstOccurrences, ParseAll, Chosen;
    assert forall i :: i in RowsOf(db, a, chosen) <==> i in chosen;
  }
}
