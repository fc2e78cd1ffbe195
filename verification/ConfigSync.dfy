/** The agent configuration in three places: the store, the lookup snapshot and the version counter. */
module ConfigSync {
  import opened Prelude
  import opened Frames
  import opened Sealing

  type u64 = n: nat | n < U64_LIMIT

  datatype Item = Item(id: string, spec: Bytes)

  datatype Config = Config(version: u64, targets: seq<Item>, jobs: seq<Item>)

  // ---- configSnapshot --------------------------------------------------------------------

  /** Items by id; of several with one id the last counts. */
  function Index(items: seq<Item>): map<string, Item> {
    if items == [] then map[]
    else Index(items[..|items| - 1])[items[|items| - 1].id := items[|items| - 1]]
  }

  /** Lookup finds exactly the ids listed, and for each the last item listed under it. */
  lemma {:induction false} IndexFindsLast(items: seq<Item>, id: string)
    ensures id in Index(items) <==> exists i :: 0 <= i < |items| && items[i].id == id
    ensures id in Index(items) ==>
      exists i :: 0 <= i < |items| && Index(items)[id] == items[i] && items[i].id == id
        && forall j | i < j < |items| :: items[j].id != id
  {
    if items == [] {
    } else {
      var front, last := items[..|items| - 1], items[|items| - 1];
      IndexFindsLast(front, id);
      if last.id == id {
        assert items[|items| - 1].id == id;
      } else if id in Index(front) {
        var i :| 0 <= i < |front| && Index(front)[id] == front[i] && front[i].id == id
          && forall j | i < j < |front| :: front[j].id != id;
        assert items[i] == front[i];
        assert forall j | i < j < |items| :: items[j].id != id;
      }
    }
  }

  method BuildIndex(items: seq<Item>) returns (m: map<string, Item>)
    ensures m == Index(items)
  {
    m := map[];
    var i := 0;
    while i < |items|
      invariant i <= |items| && m == Index(items[..i])
    {
      assert items[..i + 1][..i] == items[..i];
      m := m[items[i].id := items[i]];
      i := i + 1;
    }
    assert items[..i] == items;
  }

  // ---- what the messages do, abstractly ------------------------------------------------------

  /**
   A RegisterAck at connect time or a ConfigUpdate later; either may carry no config, and
   the save of the one it carries may fail, which the code ignores.
   */
  datatype Event = Ack(config: Option<Config>, saves: bool) | Update(config: Option<Config>, saves: bool)

  datatype Sync = Sync(version: u64, persisted: Option<Config>, snapshot: Option<Config>)

  function Deliver(s: Sync, e: Event): Sync {
    if e.config.None? then s
    else
      var c := e.config.value;
      var version := if e.Update? || c.version > s.version then c.version else s.version;
      Sync(version, if e.saves then Some(c) else s.persisted, Some(c))
  }

  function Deliveries(s: Sync, events: seq<Event>): Sync {
    if events == [] then s
    else Deliver(Deliveries(s, events[..|events| - 1]), events[|events| - 1])
  }

  /** A process start: the counter is seeded from disk, the snapshot is empty. */
  function Start(persisted: Option<Config>): Sync {
    Sync(if persisted.Some? then persisted.value.version else 0, persisted, None)
  }

  // ---- the agent's fields -----------------------------------------------------------------------

  /** Protobuf encoding of a config, invertible. */
  datatype Codec = Codec(marshal: Config -> Bytes, unmarshal: Bytes -> Option<Config>)
  {
    ghost predicate Valid() { forall c: Config :: unmarshal(marshal(c)) == Some(c) }
  }

  datatype Loaded = NotFound | Unreadable | Found(version: u64, raw: Bytes)

  class Agent {
    const aead: Aead
    const codec: Codec
    var configVersion: u64
    var current: Option<Bytes>       // bucket key "current"
    var versionBytes: Option<Bytes>  // bucket key "version"
    var targets: map<string, Item>
    var jobs: map<string, Item>

    /** The store and the snapshot hold what s says, under the counter s says. */
    ghost predicate Represents(s: Sync)
      reads this
    {
      && configVersion == s.version
      && (s.persisted.None? ==> current.None?)
      && (s.persisted.Some? ==>
            && current.Some? && OpenValue(aead, current.value) == Some(codec.marshal(s.persisted.value))
            && versionBytes == Some(BigEndian64(s.persisted.value.version)))
      && targets == (if s.snapshot.Some? then Index(s.snapshot.value.targets) else map[])
      && jobs == (if s.snapshot.Some? then Index(s.snapshot.value.jobs) else map[])
    }

    /** NewClient and newConfigSnapshot over an existing state file. */
    constructor (aead: Aead, codec: Codec, current: Option<Bytes>, versionBytes: Option<Bytes>)
      ensures this.aead == aead && this.codec == codec
      ensures this.current == current && this.versionBytes == versionBytes
      ensures forall c: Config ::
        (current.Some? && OpenValue(aead, current.value) == Some(codec.marshal(c))
         && versionBytes == Some(BigEndian64(c.version))) ==> Represents(Start(Some(c)))
      ensures current.None? ==> Represents(Start(None))
    {
      this.aead, this.codec := aead, codec;
      this.current, this.versionBytes := current, versionBytes;
      targets, jobs := map[], map[];
      configVersion := 0;
      new;
      var loaded := LoadConfig();
      if loaded.Found? {
        configVersion := loaded.version;
      }
    }

    /** `LoadConfig`: absent, sealed under another key, or the version and raw config. */
    method LoadConfig() returns (r: Loaded)
      ensures r.NotFound? <==> current.None?
      ensures r.Unreadable? <==> current.Some? && OpenValue(aead, current.value).None?
      ensures forall c: Config ::
        (current.Some? && OpenValue(aead, current.value) == Some(codec.marshal(c))
         && versionBytes == Some(BigEndian64(c.version))) ==> r == Found(c.version, codec.marshal(c))
      ensures r.Found? && (versionBytes.None? || |versionBytes.value| != 8) ==> r.version == 0
      ensures r.Found? ==> OpenValue(aead, current.value) == Some(r.raw)
    {
      if current.None? {
        return NotFound;
      }
      var raw := OpenValue(aead, current.value);
      if raw.None? {
        return Unreadable;
      }
      var version := if versionBytes.Some? then BytesToU64(versionBytes.value) else 0;
      forall c: Config | versionBytes == Some(BigEndian64(c.version)) ensures version == c.version {
        BigEndian64RoundTrip(c.version);
      }
      if version >= U64_LIMIT {
        BytesToU64Bound(versionBytes.value);
      }
      r := Found(version, raw.value);
    }

    /** `SaveConfig`: both keys in one transaction, or neither; `commits` is its outcome. */
    method SaveConfig(c: Config, nonce: Option<Nonce>, commits: bool) returns (ok: bool)
      requires aead.Valid()
      modifies `current, `versionBytes
      ensures ok == (nonce.Some? && commits)
      ensures ok ==>
        && current.Some? && OpenValue(aead, current.value) == Some(codec.marshal(c))
        && versionBytes == Some(BigEndian64(c.version))
      ensures !ok ==> current == old(current) && versionBytes == old(versionBytes)
    {
      if nonce.None? || !commits {
        return false;
      }
      OpenSealed(aead, nonce.value, codec.marshal(c));
      current := Some(SealValue(aead, nonce.value, codec.marshal(c)));
      versionBytes := Some(BigEndian64(c.version));
      ok := true;
    }

    /** `configSnapshot.Set`, through the OnConfigUpdate handler. */
    method SetSnapshot(c: Config)
      modifies `targets, `jobs
      ensures targets == Index(c.targets) && jobs == Index(c.jobs)
    {
      targets := BuildIndex(c.targets);
      jobs := BuildIndex(c.jobs);
    }

    method OnRegisterAck(config: Option<Config>, nonce: Option<Nonce>, commits: bool, ghost s: Sync)
      requires aead.Valid() && Represents(s)
      modifies this
      ensures Represents(Deliver(s, Ack(config, nonce.Some? && commits)))
    {
      if config.Some? && config.value.version > configVersion {
        configVersion := config.value.version;
      }
      if config.Some? {
        var _ := SaveConfig(config.value, nonce, commits);
        SetSnapshot(config.value);
      }
    }

    method OnConfigUpdate(config: Option<Config>, nonce: Option<Nonce>, commits: bool, ghost s: Sync)
      requires aead.Valid() && Represents(s)
      modifies this
      ensures Represents(Deliver(s, Update(config, nonce.Some? && commits)))
    {
      if config.Some? {
        var _ := SaveConfig(config.value, nonce, commits);
        configVersion := config.value.version;
        SetSnapshot(config.value);
      }
    }
  }

  lemma BytesToU64Bound(b: Bytes)
    ensures BytesToU64(b) < U64_LIMIT
  {
    if |b| == 8 {
      BigEndian64Bound(b);
    }
  }

  // ---- agreement ------------------------------------------------------------------------------------

  /** The last delivery that carried a config, if any. */
  function LastDelivery(events: seq<Event>): Option<Event> {
    if events == [] then None
    else if events[|events| - 1].config.Some? then Some(events[|events| - 1])
    else LastDelivery(events[..|events| - 1])
  }

  /** The last config whose save went through, or what an earlier process left. */
  function LastSaved(persisted: Option<Config>, events: seq<Event>): Option<Config> {
    if events == [] then persisted
    else if events[|events| - 1].config.Some? && events[|events| - 1].saves then events[|events| - 1].config
    else LastSaved(persisted, events[..|events| - 1])
  }

  /**
   The snapshot holds the last config delivered, the store the last one saved, and the
   counter is at least the version of the snapshot; without a delivery nothing changes.
   */
  lemma {:induction false} Agreement(persisted: Option<Config>, events: seq<Event>)
    ensures var s, last := Deliveries(Start(persisted), events), LastDelivery(events);
      && s.persisted == LastSaved(persisted, events)
      && s.snapshot == (if last.Some? then last.value.config else None)
      && (s.snapshot.Some? ==> s.version >= s.snapshot.value.version)
      && ((last.None? || last.value.saves) && s.persisted.Some? ==> s.version >= s.persisted.value.version)
      && (last.None? ==> s == Start(persisted))
  {
    if events == [] {
    } else {
      Agreement(persisted, events[..|events| - 1]);
    }
  }

  /** The events before the last delivery that carried a config. */
  function BeforeLast(events: seq<Event>): seq<Event>
    requires LastDelivery(events).Some?
  {
    if events[|events| - 1].config.Some? then events[..|events| - 1] else BeforeLast(events[..|events| - 1])
  }

  /** Nothing after the last delivery matters. */
  lemma {:induction false} LastDecides(s: Sync, persisted: Option<Config>, events: seq<Event>)
    requires LastDelivery(events).Some?
    ensures Deliveries(s, events) == Deliver(Deliveries(s, BeforeLast(events)), LastDelivery(events).value)
    ensures LastSaved(persisted, events)
         == if LastDelivery(events).value.saves then LastDelivery(events).value.config
            else LastSaved(persisted, BeforeLast(events))
  {
    if events[|events| - 1].config.Some? {
    } else {
      LastDecides(s, persisted, events[..|events| - 1]);
    }
  }

  /**
   Store and snapshot agree exactly when the last config delivered was saved, or is the
   one the store already held; before any delivery, exactly when nothing was stored.
   */
  lemma AgreementExactlyWhen(persisted: Option<Config>, events: seq<Event>)
    ensures var s, last := Deliveries(Start(persisted), events), LastDelivery(events);
      s.persisted == s.snapshot <==>
        if last.None? then persisted.None?
        else last.value.saves || LastSaved(persisted, BeforeLast(events)) == last.value.config
  {
    Agreement(persisted, events);
    if LastDelivery(events).Some? {
      LastDecides(Start(persisted), persisted, events);
    }
  }

  /** The counter is not the delivered version exactly after a RegisterAck that carried a lower one. */
  lemma VersionAheadExactlyWhen(persisted: Option<Config>, events: seq<Event>)
    requires LastDelivery(events).Some?
    ensures var s, last := Deliveries(Start(persisted), events), LastDelivery(events).value;
      var before := Deliveries(Start(persisted), BeforeLast(events)).version;
      && s.snapshot == last.config && s.snapshot.Some?
      && (s.version != s.snapshot.value.version <==> last.Ack? && s.snapshot.value.version < before)
      && (s.version != s.snapshot.value.version ==> s.version == before)
  {
    Agreement(persisted, events);
    LastDecides(Start(persisted), persisted, events);
    LastCarries(events);
  }

  lemma {:induction false} LastCarries(events: seq<Event>)
    requires LastDelivery(events).Some?
    ensures LastDelivery(events).value.config.Some?
  {
    if events[|events| - 1].config.Some? {
    } else {
      LastCarries(events[..|events| - 1]);
    }
  }

  /** An agent's fields over a whole process life, one delivery after another, saves failing or not. */
  method RunSession(a: Agent, persisted: Option<Config>, events: seq<Event>, nonce: nat -> Nonce)
    requires a.aead.Valid() && a.Represents(Start(persisted))
    modifies a
    ensures a.Represents(Deliveries(Start(persisted), events))
  {
    var i := 0;
    assert events[..0] == [];
    while i < |events|
      invariant i <= |events| && a.Represents(Deliveries(Start(persisted), events[..i]))
    {
      ghost var before := Deliveries(Start(persisted), events[..i]);
      match events[i] {
        case Ack(config, saves) => a.OnRegisterAck(config, Some(nonce(i)), saves, before);
        case Update(config, saves) => a.OnConfigUpdate(config, Some(nonce(i)), saves, before);
      }
      assert events[..i + 1][..i] == events[..i];
      i := i + 1;
    }
    assert events[..i] == events;
  }

  /**
   What that means for the fields: a lookup finds exactly the last delivered config's
   targets and jobs, the counter is at least its version, and if it was saved the bytes
   on disk decode to it, under that version.
   */
  lemma StoreAndSnapshotHold(a: Agent, persisted: Option<Config>, events: seq<Event>, id: string)
    requires a.codec.Valid() && a.Represents(Deliveries(Start(persisted), events))
    requires LastDelivery(events).Some?
    ensures LastDelivery(events).value.config.Some?
    ensures var c := LastDelivery(events).value.config.value;
      && c.version <= a.configVersion
      && (id in a.targets <==> exists i :: 0 <= i < |c.targets| && c.targets[i].id == id)
      && (id in a.jobs <==> exists i :: 0 <= i < |c.jobs| && c.jobs[i].id == id)
      && (LastDelivery(events).value.saves ==>
            && a.current.Some? && OpenValue(a.aead, a.current.value).Some?
            && a.codec.unmarshal(OpenValue(a.aead, a.current.value).value) == Some(c)
            && a.versionBytes.Some? && BytesToU64(a.versionBytes.value) == c.version)
  {
    LastCarries(events);
    var c := LastDelivery(events).value.config.value;
    Agreement(persisted, events);
    LastDecides(Start(persisted), persisted, events);
    BigEndian64RoundTrip(c.version);
    IndexFindsLast(c.targets, id);
    IndexFindsLast(c.jobs, id);
  }
}
