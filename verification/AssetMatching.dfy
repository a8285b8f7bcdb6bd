/** Where an observation goes, told by its fields: the device first, then host name and system
together, then the hardware address. */
module AssetMatching {
  import opened Basics
  import opened AssetIdentity
  import H = AssetHistory

  function ByDevice(obs: Observation): Option<Ident> {
    if Given(obs.deviceId) then Some(Ident(DeviceId, obs.deviceId.value)) else None
  }

  function ByHost(obs: Observation, lower: string -> string): Option<Ident> {
    if Given(obs.hostname) && Given(obs.osFamily)
    then Some(Ident(HostnameOs, lower(obs.hostname.value) + "|" + obs.osFamily.value)) else None
  }

  function ByMac(obs: Observation, lower: string -> string): Option<Ident> {
    if Given(obs.mac) then Some(Ident(Mac, lower(obs.mac.value))) else None
  }

  /** One of the identifiers that the fields give. */
  predicate IsGiven(obs: Observation, lower: string -> string, i: Ident) {
    Some(i) == ByDevice(obs) || Some(i) == ByHost(obs, lower) || Some(i) == ByMac(obs, lower)
  }

  /** The identifier is there and bound. */
  predicate Bound(db: Db, i: Option<Ident>) {
    i.Some? && i.value in db.identities
  }

  /** It is bound to an asset that the observation's device, if it names one, may share. */
  predicate Matches(db: Db, obs: Observation, i: Option<Ident>) {
    Bound(db, i) && !(Given(obs.deviceId) && OtherDevice(db, db.identities[i.value], obs.deviceId.value))
  }

  /** Every identifier of the observation that was not bound is now bound to `a`, and no other
  binding changed. */
  ghost predicate BoundTo(db: Db, after: Db, obs: Observation, lower: string -> string, a: AssetId) {
    && (forall i :: i in db.identities ==> i in after.identities && after.identities[i] == db.identities[i])
    && (forall i :: i in after.identities && i !in db.identities ==>
          after.identities[i] == a && IsGiven(obs, lower, i))
    && (forall i :: IsGiven(obs, lower, i) ==> i in after.identities)
    && after.pins == db.pins && after.devices == db.devices
  }

  /** Of the assets only `a` changed, and only the time it was last seen. */
  ghost predicate OnlySeen(db: Db, after: Db, a: AssetId, seen: int) {
    && after.assets.Keys == db.assets.Keys
    && (forall x :: x in db.assets && x != a ==> after.assets[x] == db.assets[x])
    && (a in db.assets ==>
          after.assets[a] == db.assets[a].(lastSeen := Max(db.assets[a].lastSeen, seen)))
  }

  /** The observation goes to an asset that exists. */
  ghost predicate GoesTo(db: Db, after: Db, obs: Observation, lower: string -> string, a: AssetId) {
    BoundTo(db, after, obs, lower, a) && OnlySeen(db, after, a, obs.observedAt)
  }

  /** It makes a new asset. */
  ghost predicate Creates(db: Db, after: Db, obs: Observation, lower: string -> string, a: AssetId) {
    BoundTo(db, after, obs, lower, a) && after.assets == db.assets[a := Asset(Active, obs.observedAt)]
  }

  /** An observation has exactly the identifiers that its fields give. */
  lemma FieldsYield(obs: Observation, lower: string -> string, i: Ident)
    ensures i in Identifiers(obs, lower) <==>
      || (i.kind.DeviceId? && Given(obs.deviceId) && i.value == obs.deviceId.value)
      || (i.kind.HostnameOs? && Given(obs.hostname) && Given(obs.osFamily)
          && i.value == lower(obs.hostname.value) + "|" + obs.osFamily.value)
      || (i.kind.Mac? && Given(obs.mac) && i.value == lower(obs.mac.value))
  {
  }

  lemma CandidateIsBinding(db: Db, i: Ident)
    requires Coherent(db)
    ensures Candidate(db, i) == Lookup(db.identities, i)
  {
  }

  /** The decision over the three fields. */
  lemma ResolvesTo(db: Db, obs: Observation, lower: string -> string)
    requires Coherent(db)
    ensures Resolve(db, obs.deviceId, Identifiers(obs, lower)) ==
      if Bound(db, ByDevice(obs)) then Some(db.identities[ByDevice(obs).value])
      else if Matches(db, obs, ByHost(obs, lower)) then Some(db.identities[ByHost(obs, lower).value])
      else if Matches(db, obs, ByMac(obs, lower)) then Some(db.identities[ByMac(obs, lower).value])
      else None
  {
    hide OtherDevice, Coherent;
    forall i ensures Candidate(db, i) == Lookup(db.identities, i) { CandidateIsBinding(db, i); }
    hide Candidate;
    var idents := Identifiers(obs, lower);
    var device, host, mac := ByDevice(obs), ByHost(obs, lower), ByMac(obs, lower);
    assert idents == Listed(device) + (Listed(host) + Listed(mac));
    ResolveFirst(db, obs.deviceId, device, Listed(host) + Listed(mac));
    ResolveFirst(db, obs.deviceId, host, Listed(mac));
    ResolveFirst(db, obs.deviceId, mac, []);
    assert Listed(mac) + [] == Listed(mac);
  }

  function Listed(i: Option<Ident>): seq<Ident> {
    if i.Some? then [i.value] else []
  }

  lemma ResolveFirst(db: Db, device: Option<string>, i: Option<Ident>, rest: seq<Ident>)
    ensures Resolve(db, device, Listed(i) + rest) ==
      if i.Some? && Candidate(db, i.value).Some?
         && !(!i.value.kind.DeviceId? && Given(device) && OtherDevice(db, Candidate(db, i.value).value, device.value))
      then Candidate(db, i.value) else Resolve(db, device, rest)
  {
    hide OtherDevice, Candidate;
    if i.Some? {
      assert (Listed(i) + rest)[0] == i.value && (Listed(i) + rest)[1..] == rest;
    } else {
      assert Listed(i) + rest == rest;
    }
  }

  /** Where an observation goes: to its device's asset; with no device, or one not seen before, to
  that of its host name and system; failing that to that of its hardware address; in both cases
  unless another device than its own is bound there.  Else it makes a new asset, or, without any
  identifier or with an id that is taken, changes nothing. */
  lemma {:induction false} ObservationGoesTo(db: Db, obs: Observation, lower: string -> string, newId: AssetId)
    requires Coherent(db)
    ensures var after := Observe(db, obs, lower, newId);
      var device, host, mac := ByDevice(obs), ByHost(obs, lower), ByMac(obs, lower);
      if Bound(db, device) then GoesTo(db, after, obs, lower, db.identities[device.value])
      else if Matches(db, obs, host) then GoesTo(db, after, obs, lower, db.identities[host.value])
      else if Matches(db, obs, mac) then GoesTo(db, after, obs, lower, db.identities[mac.value])
      else if (device.None? && host.None? && mac.None?) || newId in db.assets then after == db
      else Creates(db, after, obs, lower, newId)
  {
    ResolvesTo(db, obs, lower);
    NoneGiven(obs, lower);
    var found := Resolve(db, obs.deviceId, Identifiers(obs, lower));
    hide Resolve, Matches, Coherent, ByDevice, ByHost, ByMac, GoesTo, Creates;
    if found.Some? {
      FoundGoesTo(db, obs, lower, newId);
    } else if Identifiers(obs, lower) != [] && newId !in db.assets {
      NotFoundCreates(db, obs, lower, newId);
    }
    hide Identifiers;
  }

  lemma FoundGoesTo(db: Db, obs: Observation, lower: string -> string, newId: AssetId)
    requires Coherent(db) && Resolve(db, obs.deviceId, Identifiers(obs, lower)).Some?
    ensures GoesTo(db, Observe(db, obs, lower, newId), obs, lower,
                   Resolve(db, obs.deviceId, Identifiers(obs, lower)).value)
  {
    var idents := Identifiers(obs, lower);
    var a := Resolve(db, obs.deviceId, idents).value;
    forall i ensures i in idents <==> IsGiven(obs, lower, i) { GivenByFields(obs, lower, i); }
    BindIs(db, a, idents);
    Touched(db.assets, a, obs.observedAt);
    assert idents != [];
    hide Resolve, Identifiers, Bind, Touch, Coherent, IsGiven;
  }

  lemma NotFoundCreates(db: Db, obs: Observation, lower: string -> string, newId: AssetId)
    requires Coherent(db) && Resolve(db, obs.deviceId, Identifiers(obs, lower)).None?
    requires Identifiers(obs, lower) != [] && newId !in db.assets
    ensures Creates(db, Observe(db, obs, lower, newId), obs, lower, newId)
  {
    var idents := Identifiers(obs, lower);
    forall i ensures i in idents <==> IsGiven(obs, lower, i) { GivenByFields(obs, lower, i); }
    BindIs(db, newId, idents);
    hide Resolve, Identifiers, Bind, Coherent, IsGiven;
  }

  lemma NoneGiven(obs: Observation, lower: string -> string)
    ensures Identifiers(obs, lower) == [] <==>
      ByDevice(obs).None? && ByHost(obs, lower).None? && ByMac(obs, lower).None?
  {
  }

  lemma GivenByFields(obs: Observation, lower: string -> string, i: Ident)
    ensures i in Identifiers(obs, lower) <==> IsGiven(obs, lower, i)
  {
  }

  lemma BindIs(db: Db, a: AssetId, idents: seq<Ident>)
    requires Coherent(db)
    ensures var after := Bind(db, a, idents);
      && (forall i :: i in db.identities ==> i in after && after[i] == db.identities[i])
      && (forall i :: i in after && i !in db.identities ==> after[i] == a && i in idents)
      && (forall i :: i in idents ==> i in after)
  {
  }

  lemma Touched(assets: map<AssetId, Asset>, a: AssetId, seen: int)
    ensures var after := Touch(assets, a, seen);
      && after.Keys == assets.Keys
      && (forall x :: x in assets && x != a ==> after[x] == assets[x])
      && (a in assets ==> after[a] == assets[a].(lastSeen := Max(assets[a].lastSeen, seen)))
  {
  }

  // ---- enrolled devices

  lemma DevicesKept(env: Env, db: Db, step: H.Step)
    ensures db.devices.Keys <= H.Apply(env, db, step).devices.Keys
  {
    if step.Observed? {
      ObserveKeepsDevices(db, step.obs, env.lower, step.newId);
    }
    hide Observe, MergeError, ParseAll, FirstOccurrences;
  }

  lemma ObserveKeepsDevices(db: Db, obs: Observation, lower: string -> string, newId: AssetId)
    ensures Observe(db, obs, lower, newId).devices == db.devices
  {
  }

  lemma {:induction false} DevicesStay(env: Env, db: Db, steps: seq<H.Step>)
    ensures db.devices.Keys <= H.Run(env, db, steps).devices.Keys
  {
    hide H.Apply;
    if steps != [] {
      DevicesStay(env, db, steps[..|steps| - 1]);
      DevicesKept(env, H.Run(env, db, steps[..|steps| - 1]), steps[|steps| - 1]);
    }
  }

  /** An enrolment is refused exactly when its asset, its device's identity or its device row is
  there.  Otherwise the new asset is active and has that device and no other, in both tables; and
  ever after, the row is there and what the device reports goes to the asset it is then bound to. */
  lemma {:induction false} EnrolledIsKnown(env: Env, db: Db, suffix: string, newId: AssetId, now: int,
                                           steps: seq<H.Step>, obs: Observation, later: AssetId)
    requires Coherent(db) && obs.deviceId == Some("dev_" + suffix)
    ensures var name, r := "dev_" + suffix, Enroll(db, suffix, newId, now);
      && (r.Ok? <==> newId !in db.assets && Ident(DeviceId, name) !in db.identities && name !in db.devices)
      && (r.Ok? ==>
            && r.value.devices == db.devices[name := newId] && r.value.pins == db.pins
            && r.value.assets == db.assets[newId := Asset(Active, now)] && Devices(r.value, newId) == {name}
            && var then_ := H.Run(env, r.value, steps);
               && name in then_.devices && Ident(DeviceId, name) in then_.identities
               && GoesTo(then_, Observe(then_, obs, env.lower, later), obs, env.lower,
                         then_.identities[Ident(DeviceId, name)]))
  {
    var name, r := "dev_" + suffix, Enroll(db, suffix, newId, now);
    if r.Ok? {
      EnrolledCoherent(db, suffix, newId, now);
      H.RunKeeps(env, r.value, steps);
      DevicesStay(env, r.value, steps);
      var then_ := H.Run(env, r.value, steps);
      assert Ident(DeviceId, name) in r.value.identities.Keys && name in r.value.devices.Keys;
      hide H.Run, Coherent, GoesTo, Observe, OtherDevice, Devices;
      ObservationGoesTo(then_, obs, env.lower, later);
    }
  }

  lemma EnrolledCoherent(db: Db, suffix: string, newId: AssetId, now: int)
    requires Coherent(db) && Enroll(db, suffix, newId, now).Ok?
    ensures var after := Enroll(db, suffix, newId, now).value;
      Coherent(after) && Devices(after, newId) == {DeviceName(suffix)}
  {
    var after, name := Enroll(db, suffix, newId, now).value, DeviceName(suffix);
    forall d ensures d in Devices(after, newId) <==> d == name {
      var i := Ident(DeviceId, d);
      assert i.kind.DeviceId? && i.value == d;
      assert d == name ==> after.identities[i] == newId;
      assert d in Devices(after, newId) <==> i in after.identities && after.identities[i] == newId;
    }
  }
}
