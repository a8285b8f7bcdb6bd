/** The transactions on the asset tables, statement by statement. */
module AssetStoreModule {
  import opened Basics
  import opened AssetIdentity

  class AssetStore {
    var identities: map<Ident, AssetId>
    var pins: map<Ident, AssetId>
    var assets: map<AssetId, Asset>
    var devices: map<string, AssetId>

    function Snapshot(): Db
      reads this
    {
      Db(identities, pins, assets, devices)
    }

    ghost predicate Valid()
      reads this
    {
      Coherent(Snapshot())
    }

    constructor ()
      ensures Valid() && Snapshot() == EMPTY
    {
      identities, pins, assets, devices := map[], map[], map[], map[];
    }

    /** The unordered lookup of one device bound to the asset: any of them may come back. */
    method AnyDevice(asset: AssetId) returns (device: Option<string>)
      ensures match device
        case Some(d) => Ident(DeviceId, d) in identities && identities[Ident(DeviceId, d)] == asset
        case None => forall i :: i in identities && i.kind.DeviceId? ==> identities[i] != asset
    {
      if exists i :: i in identities && i.kind.DeviceId? && identities[i] == asset {
        var i :| i in identities && i.kind.DeviceId? && identities[i] == asset;
        return Some(i.value);
      }
      return None;
    }

    method ResolveAsset(obs: Observation, idents: seq<Ident>, ghost lower: string -> string)
      returns (found: Option<AssetId>)
      requires Valid() && idents == Identifiers(obs, lower)
      ensures found == Resolve(Snapshot(), obs.deviceId, idents)
    {
      ghost var db := Snapshot();
      for k := 0 to |idents|
        invariant Resolve(db, obs.deviceId, idents) == Resolve(db, obs.deviceId, idents[k..])
        invariant k > 0 && Given(obs.deviceId) ==> Ident(DeviceId, obs.deviceId.value) !in identities
      {
        var i := idents[k];
        assert idents[k..][0] == i && idents[k..][1..] == idents[k + 1..];
        var candidate: Option<AssetId> := None;
        if i in pins {
          candidate := Some(pins[i]);
        } else if i in identities {
          candidate := Some(identities[i]);
        }
        if candidate.Some? {
          var skip := false;
          if !i.kind.DeviceId? && Given(obs.deviceId) {
            var bound := AnyDevice(candidate.value);
            skip := Given(bound) && bound.value != obs.deviceId.value;
            LookupIsImmaterial(candidate.value, obs, bound, lower);
          }
          if !skip {
            return candidate;
          }
        }
      }
      assert idents[|idents|..] == [];
      return None;
    }

    /** When the observed device is unbound, every device on the candidate differs from it,
    so it does not matter which one the lookup returns. */
    lemma LookupIsImmaterial(asset: AssetId, obs: Observation, bound: Option<string>, lower: string -> string)
      requires Valid() && Given(obs.deviceId) && Ident(DeviceId, obs.deviceId.value) !in identities
      requires match bound
        case Some(d) => Ident(DeviceId, d) in identities && identities[Ident(DeviceId, d)] == asset
        case None => forall i :: i in identities && i.kind.DeviceId? ==> identities[i] != asset
      ensures (Given(bound) && bound.value != obs.deviceId.value) == OtherDevice(Snapshot(), asset, obs.deviceId.value)
    {
      if bound.Some? {
        var i := Ident(DeviceId, bound.value);
        assert i in identities && i.kind.DeviceId? && i.value != obs.deviceId.value && identities[i] == asset;
      }
    }

    static lemma BindNone(db: Db, asset: AssetId, none: seq<Ident>)
      requires none == []
      ensures Bind(db, asset, none) == db.identities
    {
    }

    static lemma BindOne(db: Db, asset: AssetId, idents: seq<Ident>, i: Ident)
      ensures Bind(db, asset, idents + [i])
        == if (i in db.pins && db.pins[i] != asset) || i in Bind(db, asset, idents) then Bind(db, asset, idents)
           else Bind(db, asset, idents)[i := asset]
    {
    }

    method BindIdentities(asset: AssetId, idents: seq<Ident>)
      modifies this`identities
      ensures identities == Bind(old(Snapshot()), asset, idents)
    {
      hide Bind;
      ghost var db := Snapshot();
      BindNone(db, asset, idents[..0]);
      for k := 0 to |idents|
        invariant identities == Bind(db, asset, idents[..k])
      {
        var i := idents[k];
        assert idents[..k + 1] == idents[..k] + [i];
        BindOne(db, asset, idents[..k], i);
        if i in pins && pins[i] != asset {
          continue;
        }
        if i !in identities {
          identities := identities[i := asset];
        }
      }
      assert idents[..|idents|] == idents;
    }

    /** One observation message. */
    method Handle(obs: Observation, lower: string -> string, newId: AssetId)
      requires Valid()
      modifies this
      ensures Snapshot() == Observe(old(Snapshot()), obs, lower, newId)
    {
      var idents: seq<Ident> := [];
      if Given(obs.deviceId) {
        idents := idents + [Ident(DeviceId, obs.deviceId.value)];
      }
      if Given(obs.hostname) && Given(obs.osFamily) {
        idents := idents + [Ident(HostnameOs, lower(obs.hostname.value) + "|" + obs.osFamily.value)];
      }
      if Given(obs.mac) {
        idents := idents + [Ident(Mac, lower(obs.mac.value))];
      }
      assert idents == Identifiers(obs, lower);
      if idents == [] {
        return;
      }
      var found := ResolveAsset(obs, idents, lower);
      var asset := newId;
      match found {
        case None =>
          if newId in assets {
            return;
          }
          assets := assets[newId := Asset(Active, obs.observedAt)];
        case Some(a) =>
          asset := a;
          assets := Touch(assets, a, obs.observedAt);
      }
      BindIdentities(asset, idents);
    }

    method EnrollDevice(suffix: string, newId: AssetId, now: int) returns (error: Option<ApiError>)
      modifies this
      ensures match Enroll(old(Snapshot()), suffix, newId, now)
        case Ok(db) => error.None? && Snapshot() == db
        case Err(e) => error == Some(e) && Snapshot() == old(Snapshot())
    {
      var device := DeviceName(suffix);
      if newId in assets || Ident(DeviceId, device) in identities || device in devices {
        return Some(Conflict);
      }
      assets := assets[newId := Asset(Active, now)];
      identities := identities[Ident(DeviceId, device) := newId];
      devices := devices[device := newId];
      return None;
    }

    static method ParseIds<T>(parse: string -> Option<T>, texts: seq<string>) returns (ids: Option<seq<T>>)
      ensures ids == ParseAll(parse, texts)
    {
      var parsed: seq<T> := [];
      for k := 0 to |texts|
        invariant ParseAll(parse, texts[..k]) == Some(parsed)
      {
        assert texts[..k + 1][..k] == texts[..k];
        var id := parse(texts[k]);
        if id.None? {
          ParseFails(parse, texts, k);
          return None;
        }
        parsed := parsed + [id.value];
      }
      assert texts[..|texts|] == texts;
      return Some(parsed);
    }

    static lemma ParseFails<T>(parse: string -> Option<T>, texts: seq<string>, k: nat)
      requires k < |texts| && parse(texts[k]).None?
      ensures ParseAll(parse, texts).None?
    {
      if k < |texts| - 1 {
        ParseFails(parse, texts[..|texts| - 1], k);
      }
    }

    method CheckActive(ids: seq<AssetId>) returns (error: Option<ApiError>)
      ensures error == MergeError(assets, ids)
    {
      for k := 0 to |ids|
        invariant MergeError(assets, ids) == MergeError(assets, ids[k..])
      {
        assert ids[k..][0] == ids[k] && ids[k..][1..] == ids[k + 1..];
        if ids[k] !in assets {
          return Some(NotFound);
        }
        if !assets[ids[k]].state.Active? {
          return Some(ValidationError);
        }
      }
      assert ids[|ids|..] == [];
      return None;
    }

    /** `POST /v1/assets/merge` */
    method MergeAssets(env: Env, texts: seq<string>) returns (error: Option<ApiError>)
      modifies this
      ensures match MergeRequest(env, old(Snapshot()), texts)
        case Ok(db) => error.None? && Snapshot() == db
        case Err(e) => error == Some(e) && Snapshot() == old(Snapshot())
    {
      hide RowsOfAny, Redirect, PinTo, Touch, MarkMerged, Latest, FirstOccurrences, ParseAll, MergeError;
      if |texts| < 2 || |texts| > 50 {
        return Some(ValidationError);
      }
      var parsed := ParseIds(env.assetOf, FirstOccurrences(texts));
      if parsed.None? {
        return Some(NotFound);
      }
      var ids := parsed.value;
      if |ids| < 2 {
        return Some(ValidationError);
      }
      error := CheckActive(ids);
      if error.Some? {
        return;
      }
      ActiveAll(assets, ids);
      var survivor, others := ids[0], ids[1..];
      var moved := RowsOfAny(identities, others);
      identities := Redirect(identities, others, survivor);
      PinAll(moved, survivor);
      devices := Redirect(devices, others, survivor);
      assets := Touch(assets, survivor, Latest(assets, ids));
      assets := MarkMerged(assets, others, survivor);
    }

    static lemma PinNone(pins: map<Ident, AssetId>, none: set<Ident>, asset: AssetId)
      requires none == {}
      ensures PinTo(pins, none, asset) == pins
    {
    }

    static lemma PinOneMore(pins: map<Ident, AssetId>, done: set<Ident>, i: Ident, asset: AssetId)
      ensures PinTo(pins, done + {i}, asset) == PinTo(pins, done, asset)[i := asset]
    {
    }

    /** One upsert for each moved row, in any order. */
    method PinAll(moved: set<Ident>, asset: AssetId)
      modifies this`pins
      ensures pins == PinTo(old(pins), moved, asset)
    {
      hide PinTo;
      var rest := moved;
      PinNone(pins, moved - rest, asset);
      while rest != {}
        invariant rest <= moved
        invariant pins == PinTo(old(pins), moved - rest, asset)
        decreases |rest|
      {
        var i :| i in rest;
        PinOneMore(old(pins), moved - rest, i, asset);
        assert moved - (rest - {i}) == (moved - rest) + {i};
        pins := pins[i := asset];
        rest := rest - {i};
      }
      assert moved - rest == moved;
    }

    /** `POST /v1/assets/{asset_id}/split` */
    method SplitAsset(env: Env, asset: string, texts: seq<string>, newId: AssetId, seen: int)
      returns (error: Option<ApiError>)
      modifies this
      ensures match SplitRequest(env, old(Snapshot()), asset, texts, newId, seen)
        case Ok(db) => error.None? && Snapshot() == db
        case Err(e) => error == Some(e) && Snapshot() == old(Snapshot())
    {
      hide FirstOccurrences, ParseAll, PinTo, MoveRows, MoveDevices;
      if |texts| < 1 || |texts| > 50 {
        return Some(ValidationError);
      }
      var a := env.assetOf(asset);
      if a.None? {
        return Some(NotFound);
      }
      var chosen := ParseIds(env.identityOf, FirstOccurrences(texts));
      if chosen.None? {
        return Some(ValidationError);
      }
      if a.value !in assets || !assets[a.value].state.Active? {
        return Some(NotFound);
      }
      var rows := RowsOf(Snapshot(), a.value, chosen.value);
      if |rows| != |chosen.value| {
        return Some(ValidationError);
      }
      var movedDevices := set i | i in rows && i.kind.DeviceId? :: i.value;
      DevicesOfRows(devices, rows, newId);
      if newId in assets {
        return Some(Conflict);
      }
      error := None;
      assets := assets[newId := Asset(Active, seen)];
      identities := MoveRows(identities, rows, newId);
      PinAll(rows, newId);
      if movedDevices != {} {
        devices := map d | d in devices :: if d in movedDevices then newId else devices[d];
      }
    }

    static lemma DevicesOfRows(devices: map<string, AssetId>, rows: set<Ident>, to: AssetId)
      ensures var moved := set i | i in rows && i.kind.DeviceId? :: i.value;
        && MoveDevices(devices, rows, to) == (map d | d in devices :: if d in moved then to else devices[d])
        && (moved == {} ==> MoveDevices(devices, rows, to) == devices)
    {
      var moved := set i | i in rows && i.kind.DeviceId? :: i.value;
      forall d
        ensures d in moved <==> Ident(DeviceId, d) in rows
      {
        assert Ident(DeviceId, d).value == d;
      }
    }
  }
}
