/** What holds of the asset tables over every run of observations, enrolments, merges and splits. */
module AssetHistory {
  import opened Basics
  import opened AssetIdentity

  datatype Step =
    | Observed(obs: Observation, newId: AssetId)
    | Enrolled(suffix: string, newId: AssetId, now: int)
    | Merged(texts: seq<string>)
    | Split(asset: string, texts: seq<string>, newId: AssetId, seen: int)

  function OrSame(db: Db, r: Result<Db, ApiError>): Db {
    if r.Ok? then r.value else db
  }

  /** One transaction; one that is refused changes nothing. */
  function Apply(env: Env, db: Db, step: Step): Db {
    match step
    case Observed(obs, newId) => Observe(db, obs, env.lower, newId)
    case Enrolled(suffix, newId, now) => OrSame(db, Enroll(db, suffix, newId, now))
    case Merged(texts) => OrSame(db, MergeRequest(env, db, texts))
    case Split(asset, texts, newId, seen) => OrSame(db, SplitRequest(env, db, asset, texts, newId, seen))
  }

  function Run(env: Env, db: Db, steps: seq<Step>): Db {
    if steps == [] then db else Apply(env, Run(env, db, steps[..|steps| - 1]), steps[|steps| - 1])
  }

  // ---- what each transaction keeps, with no condition

  lemma ResolvesToCandidate(db: Db, device: Option<string>, idents: seq<Ident>)
    requires Coherent(db)
    ensures Resolve(db, device, idents).Some?
      ==> exists i :: i in db.identities && i in idents && db.identities[i] == Resolve(db, device, idents).value
  {
    if idents != [] {
      assert idents[0] in idents;
      assert forall i :: i in idents[1..] ==> i in idents;
      ResolvesToCandidate(db, device, idents[1..]);
    }
  }

  lemma ObserveKeepsCoherent(db: Db, obs: Observation, lower: string -> string, newId: AssetId)
    requires Coherent(db)
    ensures Coherent(Observe(db, obs, lower, newId))
  {
    var idents := Identifiers(obs, lower);
    assert forall i :: i in idents && i.kind.DeviceId? ==> i.value != "";
    ResolvesToCandidate(db, obs.deviceId, idents);
  }

  lemma MergeKeepsCoherent(db: Db, ids: seq<AssetId>)
    requires Coherent(db) && ids != [] && MergeError(db.assets, ids).None?
    ensures Coherent(Merge(db, ids))
  {
    ActiveAll(db.assets, ids);
  }

  lemma ApplyKeepsCoherent(env: Env, db: Db, step: Step)
    requires Coherent(db)
    ensures Coherent(Apply(env, db, step))
  {
    match step {
      case Observed(obs, newId) => ObserveKeepsCoherent(db, obs, env.lower, newId);
      case Enrolled(suffix, newId, now) =>
      case Merged(texts) =>
        var ids := ParseAll(env.assetOf, FirstOccurrences(texts));
        if ids.Some? && |ids.value| >= 2 && MergeError(db.assets, ids.value).None? {
          MergeKeepsCoherent(db, ids.value);
        }
      case Split(asset, texts, newId, seen) =>
    }
  }

  /** No transaction forgets an identifier; merging and splitting invent none either; an
  observation leaves every binding as it was. */
  lemma IdentifiersKept(env: Env, db: Db, step: Step)
    requires Coherent(db)
    ensures db.identities.Keys <= Apply(env, db, step).identities.Keys
    ensures step.Merged? || step.Split? ==> Apply(env, db, step).identities.Keys == db.identities.Keys
    ensures step.Observed? ==> forall i :: i in db.identities ==> Apply(env, db, step).identities[i] == db.identities[i]
  {
    if step.Merged? {
      assert forall ids: seq<AssetId> :: ids != [] ==>
        Redirect(db.identities, ids[1..], ids[0]).Keys == db.identities.Keys;
    }
  }

  // ---- replaying an observation

  lemma RunKeeps(env: Env, db: Db, steps: seq<Step>)
    requires Coherent(db)
    ensures Coherent(Run(env, db, steps))
    ensures db.identities.Keys <= Run(env, db, steps).identities.Keys
  {
    if steps != [] {
      var before := Run(env, db, steps[..|steps| - 1]);
      RunKeeps(env, db, steps[..|steps| - 1]);
      ApplyKeepsCoherent(env, before, steps[|steps| - 1]);
      IdentifiersKept(env, before, steps[|steps| - 1]);
    }
  }

  lemma ProcessedIsBound(db: Db, obs: Observation, lower: string -> string, newId: AssetId)
    requires Coherent(db) && newId !in db.assets
    ensures forall i :: i in Identifiers(obs, lower) ==> i in Observe(db, obs, lower, newId).identities
  {
    ResolvesToCandidate(db, obs.deviceId, Identifiers(obs, lower));
  }

  lemma BoundIsIdle(db: Db, obs: Observation, lower: string -> string, newId: AssetId)
    requires Coherent(db) && forall i :: i in Identifiers(obs, lower) ==> i in db.identities
    ensures var after := Observe(db, obs, lower, newId);
      && after.identities == db.identities && after.pins == db.pins && after.devices == db.devices
      && after.assets.Keys == db.assets.Keys
  {
    var idents := Identifiers(obs, lower);
    if idents != [] {
      assert idents[0] in idents && Candidate(db, idents[0]).Some?;
      assert idents[0].kind.DeviceId? || !Given(obs.deviceId);
      var a := Candidate(db, idents[0]).value;
      assert Resolve(db, obs.deviceId, idents) == Some(a);
      assert Bind(db, a, idents) == db.identities;
    }
  }

  /** At-least-once delivery has an exactly-once effect: after an observation has been
  processed, and after any further transactions, processing it again binds nothing, moves
  nothing, and creates no asset. */
  lemma {:induction false} ReplayChangesNothing(env: Env, db: Db, obs: Observation, newId: AssetId,
                                                       steps: seq<Step>, later: AssetId)
    requires Coherent(db) && newId !in db.assets
    ensures var now := Run(env, Observe(db, obs, env.lower, newId), steps);
      var after := Observe(now, obs, env.lower, later);
      && after.identities == now.identities && after.pins == now.pins && after.devices == now.devices
      && after.assets.Keys == now.assets.Keys
  {
    hide Observe, Identifiers, Coherent;
    var once := Observe(db, obs, env.lower, newId);
    ProcessedIsBound(db, obs, env.lower, newId);
    ObserveKeepsCoherent(db, obs, env.lower, newId);
    RunKeeps(env, once, steps);
    var now := Run(env, once, steps);
    assert forall i :: i in once.identities ==> i in now.identities.Keys;
    BoundIsIdle(now, obs, env.lower, later);
  }

  // ---- devices

  lemma ResolvedByDevice(db: Db, device: string, idents: seq<Ident>)
    requires Coherent(db) && device != "" && Ident(DeviceId, device) !in db.identities
    requires forall i :: i in idents && i.kind.DeviceId? ==> i.value == device
    ensures var found := Resolve(db, Some(device), idents);
      found.Some? ==> !OtherDevice(db, found.value, device) && Devices(db, found.value) == {}
  {
    if idents != [] {
      assert idents[0] in idents;
      assert forall i :: i in idents[1..] ==> i in idents;
      ResolvedByDevice(db, device, idents[1..]);
      var c := Candidate(db, idents[0]);
      if c.Some? && !OtherDevice(db, c.value, device) {
        forall d
          ensures d !in Devices(db, c.value)
        {
          var i := Ident(DeviceId, d);
          assert i.kind.DeviceId? && i.value == d;
        }
      }
    }
  }

  /** Agent identity wins: an observation from a device goes to that device's own asset, or to
  one that has no device at all. */
  lemma AgentIdentityWins(db: Db, obs: Observation, lower: string -> string)
    requires Coherent(db) && Given(obs.deviceId)
    ensures
      var found := Resolve(db, obs.deviceId, Identifiers(obs, lower));
      var device := Ident(DeviceId, obs.deviceId.value);
      && (device in db.identities ==> found == Some(db.identities[device]))
      && (device !in db.identities && found.Some? ==> Devices(db, found.value) == {})
  {
    var idents := Identifiers(obs, lower);
    assert idents[0] == Ident(DeviceId, obs.deviceId.value);
    if idents[0] !in db.identities {
      ResolvedByDevice(db, obs.deviceId.value, idents);
    }
  }

  /** The asset an observation goes to. */
  function Target(db: Db, obs: Observation, lower: string -> string, newId: AssetId): AssetId {
    var found := Resolve(db, obs.deviceId, Identifiers(obs, lower));
    if found.Some? then found.value else newId
  }

  lemma NewBindings(db: Db, obs: Observation, lower: string -> string, newId: AssetId)
    requires Coherent(db)
    ensures var after := Observe(db, obs, lower, newId);
      && (forall i :: i in db.identities ==> i in after.identities && after.identities[i] == db.identities[i])
      && (forall i :: i in after.identities && i !in db.identities ==>
            i in Identifiers(obs, lower) && after.identities[i] == Target(db, obs, lower, newId))
      && (newId in db.assets && Resolve(db, obs.deviceId, Identifiers(obs, lower)).None? ==> after == db)
  {
    hide Resolve, Identifiers, Touch;
  }

  lemma NoDeviceYet(db: Db, a: AssetId)
    requires Coherent(db) && a !in db.assets
    ensures Devices(db, a) == {}
  {
  }

  lemma DeviceOf(obs: Observation, lower: string -> string, i: Ident)
    requires i in Identifiers(obs, lower) && i.kind.DeviceId?
    ensures Given(obs.deviceId) && i.value == obs.deviceId.value
  {
  }

  /** No observation gives an asset a second device. */
  lemma {:induction false} NoSecondDevice(db: Db, obs: Observation, lower: string -> string, newId: AssetId, a: AssetId)
    requires Coherent(db)
    ensures var before, after := Devices(db, a), Devices(Observe(db, obs, lower, newId), a);
      after == before || (before == {} && Given(obs.deviceId) && after == {obs.deviceId.value})
  {
    hide Resolve, Observe, Identifiers, Coherent, Bind;
    var after := Observe(db, obs, lower, newId);
    NewBindings(db, obs, lower, newId);
    if i :| i in after.identities && i !in db.identities && i.kind.DeviceId? && after.identities[i] == a {
      DeviceOf(obs, lower, i);
      AgentIdentityWins(db, obs, lower);
      if Resolve(db, obs.deviceId, Identifiers(obs, lower)).None? {
        NoDeviceYet(db, newId);
      }
      assert Devices(db, a) == {};
      forall d
        ensures d in Devices(after, a) <==> d == i.value
      {
        var j := Ident(DeviceId, d);
        assert d in Devices(db, a) || j !in db.identities || db.identities[j] != a by {
          assert j.kind.DeviceId? && j.value == d;
        }
        if d in Devices(after, a) {
          assert j in after.identities && after.identities[j] == a;
          DeviceOf(obs, lower, j);
        }
      }
    } else {
      SameDevices(db, after, a);
    }
  }

  lemma SameDevices(db: Db, after: Db, a: AssetId)
    requires forall i :: i in db.identities ==> i in after.identities && after.identities[i] == db.identities[i]
    requires forall i :: i in after.identities && i.kind.DeviceId? && after.identities[i] == a ==> i in db.identities
    ensures Devices(after, a) == Devices(db, a)
  {
    forall v
      ensures v in Devices(after, a) <==> v in Devices(db, a)
    {
      var i := Ident(DeviceId, v);
      assert v in Devices(after, a) ==> i in after.identities && after.identities[i] == a;
      assert v in Devices(db, a) ==> i in db.identities && db.identities[i] == a;
      assert i.kind.DeviceId? && i.value == v;
    }
  }
}
