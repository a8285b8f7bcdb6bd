/** The asset inventory of one tenant as a value, and what one transaction does to it.
Identifiers are bound to assets, manual corrections pin them, and assets that were
merged away point to their survivor. */
module AssetIdentity {
  import opened Basics

  datatype Kind = DeviceId | HostnameOs | Mac

  datatype Ident = Ident(kind: Kind, value: string)

  type AssetId = nat

  datatype AssetState = Active | Merged(into: AssetId)

  datatype Asset = Asset(state: AssetState, lastSeen: int)

  /** The four tables.  The keys are the unique constraints of the schema. */
  datatype Db = Db(identities: map<Ident, AssetId>, pins: map<Ident, AssetId>,
                   assets: map<AssetId, Asset>, devices: map<string, AssetId>)

  datatype Observation = Observation(observedAt: int, hostname: Option<string>, osFamily: Option<string>,
                                     mac: Option<string>, deviceId: Option<string>)

  datatype ApiError = NotFound | ValidationError | Conflict

  /** What the platform supplies: lower-casing, and reading an id from its text form.
  Several texts may denote the same id. */
  datatype Env = Env(lower: string -> string, assetOf: string -> Option<AssetId>, identityOf: string -> Option<Ident>)

  const EMPTY := Db(map[], map[], map[], map[])

  // ---- observing

  /** A field that is present and not the empty string. */
  predicate Given(field: Option<string>) {
    field.Some? && field.value != ""
  }

  /** The identifiers of an observation, strongest first. */
  function Identifiers(obs: Observation, lower: string -> string): seq<Ident> {
    (if Given(obs.deviceId) then [Ident(DeviceId, obs.deviceId.value)] else [])
    + (if Given(obs.hostname) && Given(obs.osFamily)
       then [Ident(HostnameOs, lower(obs.hostname.value) + "|" + obs.osFamily.value)] else [])
    + (if Given(obs.mac) then [Ident(Mac, lower(obs.mac.value))] else [])
  }

  function Lookup<K, V>(m: map<K, V>, k: K): Option<V> {
    if k in m then Some(m[k]) else None
  }

  /** A pin is consulted before the automatic binding. */
  function Candidate(db: Db, i: Ident): Option<AssetId> {
    if i in db.pins then Some(db.pins[i]) else Lookup(db.identities, i)
  }

  /** Some device other than `device` is bound to the asset. */
  predicate OtherDevice(db: Db, asset: AssetId, device: string) {
    exists i :: i in db.identities && i.kind.DeviceId? && i.value != device && db.identities[i] == asset
  }

  /** The first identifier that has a candidate decides, except that a candidate found by
  hostname or address is passed over when a different device is bound to it. */
  function Resolve(db: Db, device: Option<string>, idents: seq<Ident>): Option<AssetId> {
    if idents == [] then None
    else
      var c := Candidate(db, idents[0]);
      if c.Some? && !(!idents[0].kind.DeviceId? && Given(device) && OtherDevice(db, c.value, device.value)) then c
      else Resolve(db, device, idents[1..])
  }

  function Touch(assets: map<AssetId, Asset>, a: AssetId, seen: int): map<AssetId, Asset> {
    if a in assets && assets[a].lastSeen < seen then assets[a := assets[a].(lastSeen := seen)] else assets
  }

  /** The identifiers get the asset, unless they have one already or are pinned elsewhere. */
  function Bind(db: Db, asset: AssetId, idents: seq<Ident>): map<Ident, AssetId> {
    map i | i in db.identities.Keys + (set x | x in idents && !(x in db.pins && db.pins[x] != asset))
      :: if i in db.identities then db.identities[i] else asset
  }

  /** One observation.  Without an identifier it goes to the dead-letter table and nothing
  here changes; a clash of the random id of a new asset aborts the transaction. */
  function Observe(db: Db, obs: Observation, lower: string -> string, newId: AssetId): Db {
    var idents := Identifiers(obs, lower);
    if idents == [] then db
    else
      match Resolve(db, obs.deviceId, idents)
      case Some(a) => db.(assets := Touch(db.assets, a, obs.observedAt), identities := Bind(db, a, idents))
      case None =>
        if newId in db.assets then db
        else db.(assets := db.assets[newId := Asset(Active, obs.observedAt)], identities := Bind(db, newId, idents))
  }

  // ---- enrolling

  /** The public id of an enrolled device. */
  function DeviceName(suffix: string): string {
    "dev_" + suffix
  }

  /** An enrolment inserts an asset, an identity and a device row, or, when one of the three
  exists already, nothing. */
  function Enroll(db: Db, suffix: string, newId: AssetId, now: int): Result<Db, ApiError> {
    var d := DeviceName(suffix);
    if newId in db.assets || Ident(DeviceId, d) in db.identities || d in db.devices then Err(Conflict)
    else Ok(Db(db.identities[Ident(DeviceId, d) := newId], db.pins,
               db.assets[newId := Asset(Active, now)], db.devices[d := newId]))
  }

  // ---- merging

  /** The texts in order of first occurrence. */
  function FirstOccurrences(texts: seq<string>): seq<string> {
    if texts == [] then []
    else
      var init, last := FirstOccurrences(texts[..|texts| - 1]), texts[|texts| - 1];
      if last in init then init else init + [last]
  }

  /** The ids the texts stand for, if each stands for one. */
  function ParseAll<T>(parse: string -> Option<T>, texts: seq<string>): Option<seq<T>> {
    if texts == [] then Some([])
    else
      var init, last := ParseAll(parse, texts[..|texts| - 1]), parse(texts[|texts| - 1]);
      if init.Some? && last.Some? then Some(init.value + [last.value]) else None
  }

  predicate IsActive(assets: map<AssetId, Asset>, a: AssetId) {
    a in assets && assets[a].state.Active?
  }

  /** The first id that is unknown or was merged away, as an error. */
  function MergeError(assets: map<AssetId, Asset>, ids: seq<AssetId>): Option<ApiError> {
    if ids == [] then None
    else if ids[0] !in assets then Some(NotFound)
    else if !assets[ids[0]].state.Active? then Some(ValidationError)
    else MergeError(assets, ids[1..])
  }

  function Latest(assets: map<AssetId, Asset>, ids: seq<AssetId>): int
    requires ids != [] && forall a :: a in ids ==> a in assets
  {
    var last := assets[ids[|ids| - 1]].lastSeen;
    if |ids| == 1 then last
    else
      var before := Latest(assets, ids[..|ids| - 1]);
      if before < last then last else before
  }

  /** Every key whose asset is one of `from` now has `to`. */
  function Redirect<K>(m: map<K, AssetId>, from: seq<AssetId>, to: AssetId): map<K, AssetId> {
    map k | k in m :: if m[k] in from then to else m[k]
  }

  /** Each of the moved rows is pinned to its new asset. */
  function PinTo(pins: map<Ident, AssetId>, moved: set<Ident>, to: AssetId): map<Ident, AssetId> {
    pins + map i | i in moved :: to
  }

  /** The rows bound to one of the assets. */
  function RowsOfAny(identities: map<Ident, AssetId>, from: seq<AssetId>): set<Ident> {
    set i | i in identities && identities[i] in from
  }

  function MarkMerged(assets: map<AssetId, Asset>, from: seq<AssetId>, to: AssetId): map<AssetId, Asset> {
    map a | a in assets :: if a in from then assets[a].(state := Merged(to)) else assets[a]
  }

  lemma ActiveAll(assets: map<AssetId, Asset>, ids: seq<AssetId>)
    ensures MergeError(assets, ids).None? <==> forall a :: a in ids ==> IsActive(assets, a)
  {
    if ids != [] {
      ActiveAll(assets, ids[1..]);
      assert ids[0] in ids && forall a :: a in ids <==> a == ids[0] || a in ids[1..];
    }
  }

  /** The first asset survives; identities, pins and devices of the others move to it. */
  function Merge(db: Db, ids: seq<AssetId>): Db
    requires ids != [] && MergeError(db.assets, ids).None?
  {
    ActiveAll(db.assets, ids);
    Db(Redirect(db.identities, ids[1..], ids[0]), PinTo(db.pins, RowsOfAny(db.identities, ids[1..]), ids[0]),
       MarkMerged(Touch(db.assets, ids[0], Latest(db.assets, ids)), ids[1..], ids[0]),
       Redirect(db.devices, ids[1..], ids[0]))
  }

  function MergeRequest(env: Env, db: Db, texts: seq<string>): Result<Db, ApiError> {
    if !(2 <= |texts| <= 50) then Err(ValidationError)
    else
      var ids := ParseAll(env.assetOf, FirstOccurrences(texts));
      if ids.None? then Err(NotFound)
      else if |ids.value| < 2 then Err(ValidationError)
      else
        var error := MergeError(db.assets, ids.value);
        if error.Some? then Err(error.value) else Ok(Merge(db, ids.value))
  }

  // ---- splitting

  /** The identity rows among `chosen` that belong to the asset. */
  function RowsOf(db: Db, a: AssetId, chosen: seq<Ident>): set<Ident> {
    set i | i in chosen && i in db.identities && db.identities[i] == a
  }

  function MoveRows(identities: map<Ident, AssetId>, rows: set<Ident>, to: AssetId): map<Ident, AssetId> {
    map i | i in identities :: if i in rows then to else identities[i]
  }

  /** The devices named by the moved rows. */
  function MoveDevices(devices: map<string, AssetId>, rows: set<Ident>, to: AssetId): map<string, AssetId> {
    map d | d in devices :: if Ident(DeviceId, d) in rows then to else devices[d]
  }

  /** The rows move to a new asset, are pinned there, and take their devices along. */
  function Split(db: Db, rows: set<Ident>, newId: AssetId, seen: int): Db {
    Db(MoveRows(db.identities, rows, newId),
       PinTo(db.pins, rows, newId),
       db.assets[newId := Asset(Active, seen)],
       MoveDevices(db.devices, rows, newId))
  }

  function SplitRequest(env: Env, db: Db, asset: string, texts: seq<string>, newId: AssetId, seen: int)
    : Result<Db, ApiError>
  {
    if !(1 <= |texts| <= 50) then Err(ValidationError)
    else
      var a := env.assetOf(asset);
      var chosen := ParseAll(env.identityOf, FirstOccurrences(texts));
      if a.None? then Err(NotFound)
      else if chosen.None? then Err(ValidationError)
      else if !IsActive(db.assets, a.value) then Err(NotFound)
      else
        var rows := RowsOf(db, a.value, chosen.value);
        if |rows| != |chosen.value| then Err(ValidationError)
        else if newId in db.assets then Err(Conflict)
        else Ok(Split(db, rows, newId, seen))
  }

  // ---- what every transaction keeps

  /** A pinned identifier is bound to exactly its pinned asset, bindings point to assets that
  exist, and devices have names. */
  ghost predicate Coherent(db: Db) {
    && (forall i :: i in db.pins ==> i in db.identities && db.identities[i] == db.pins[i])
    && (forall i :: i in db.identities ==> db.identities[i] in db.assets)
    && (forall i :: i in db.identities && i.kind.DeviceId? ==> i.value != "")
  }

  /** The devices bound to the asset. */
  function Devices(db: Db, a: AssetId): set<string> {
    set i | i in db.identities && i.kind.DeviceId? && db.identities[i] == a :: i.value
  }

  /** `a` leads to an active asset in `n` steps along the survivors. */
  ghost predicate ReachesIn(assets: map<AssetId, Asset>, a: AssetId, n: nat)
    decreases n
  {
    a in assets
    && match assets[a].state
       case Active => n == 0
       case Merged(into) => n > 0 && ReachesIn(assets, into, n - 1)
  }

  ghost predicate Reaches(assets: map<AssetId, Asset>, a: AssetId) {
    exists n: nat :: ReachesIn(assets, a, n)
  }

  /** Bindings and pins point to active assets, an enrolled device agrees with its identity,
  and every merged asset leads to an active one. */
  ghost predicate Consistent(db: Db) {
    && Coherent(db)
    && (forall i :: i in db.identities ==> IsActive(db.assets, db.identities[i]))
    && (forall d :: d in db.devices ==> Ident(DeviceId, d) in db.identities
                                        && db.identities[Ident(DeviceId, d)] == db.devices[d])
    && (forall a :: a in db.assets ==> Reaches(db.assets, a))
  }
}
