/** The state the handlers share: the relational tables (devices, setups,
    playlists, images, videos) and the Redis side (the activation-code
    counter, the subscriber count of every pub/sub channel, the
    `online_devices` set and the log of every publish made). */
module Store {
  import opened Outcomes
  import opened Tables
  import opened Schemas

  // ---------------------------------------------------------------------------
  // Rows

  datatype Device = Device(name: string, location: string, apiKey: string, setupId: Option<int>, lastSeen: int)
  datatype Setup = Setup(name: string)
  datatype Playlist = Playlist(setupId: int, name: string, startTime: string, endTime: string, days: seq<bool>)
  datatype Image = Image(playlistId: int, url: string, duration: int)
  datatype Video = Video(playlistId: int, url: string)

  datatype Db = Db(
    devices: Table<Device>,
    setups: Table<Setup>,
    playlists: Table<Playlist>,
    images: Table<Image>,
    videos: Table<Video>)

  // ---------------------------------------------------------------------------
  // Redis

  /** `device:{id}:instructions`, `devices:status`, and the decimal activation
      code used as a channel name. */
  datatype Channel = Instructions(device: int) | DeviceStatus | CodeChannel(code: string)

  /** The JSON payloads published: {"instruction": "update_setup"},
      {"instruction": "snapshot", "url": ...}, {"name": ..., "api_key": ...}
      and {"id": ..., "status": "online" | "offline"}. */
  datatype Message =
    | UpdateSetupInstruction
    | Snapshot(url: string)
    | Credentials(name: string, apiKey: string)
    | Presence(device: int, online: bool)

  datatype Publish = Publish(channel: Channel, message: Message)

  datatype Redis = Redis(
    counter: Option<int>,             // `activation_code_counter`, absent until first use
    subscribers: map<Channel, nat>,   // PUBSUB NUMSUB per channel; absent means 0
    online: set<int>,                 // `online_devices`
    log: seq<Publish>)                // every PUBLISH, in order

  datatype State = State(db: Db, redis: Redis)

  function Subscribers(r: Redis, ch: Channel): nat
  {
    if ch in r.subscribers then r.subscribers[ch] else 0
  }

  function Subscribe(r: Redis, ch: Channel): (r': Redis)
    ensures Subscribers(r', ch) == Subscribers(r, ch) + 1
    ensures forall c :: c != ch ==> Subscribers(r', c) == Subscribers(r, c)
    ensures r'.counter == r.counter && r'.online == r.online && r'.log == r.log
  {
    r.(subscribers := r.subscribers[ch := Subscribers(r, ch) + 1])
  }

  /** Releasing one subscription; releasing on a channel nobody holds is a no-op. */
  function Unsubscribe(r: Redis, ch: Channel): (r': Redis)
    ensures Subscribers(r, ch) > 0 ==> Subscribers(r', ch) == Subscribers(r, ch) - 1
    ensures Subscribers(r, ch) == 0 ==> r' == r
    ensures forall c :: c != ch ==> Subscribers(r', c) == Subscribers(r, c)
    ensures r'.counter == r.counter && r'.online == r.online && r'.log == r.log
  {
    if Subscribers(r, ch) == 0 then r
    else r.(subscribers := r.subscribers[ch := Subscribers(r, ch) - 1])
  }

  /** PUBLISH is fire-and-forget: it is logged whether or not anyone listens. */
  function Emit(r: Redis, ps: seq<Publish>): (r': Redis)
    ensures r'.log == r.log + ps
    ensures r'.counter == r.counter && r'.online == r.online && r'.subscribers == r.subscribers
  {
    r.(log := r.log + ps)
  }

  /** One `update_setup` instruction to each listed device, in list order. */
  function UpdateNotices(ids: seq<int>): (ps: seq<Publish>)
    ensures |ps| == |ids|
    ensures forall i :: 0 <= i < |ids| ==> ps[i] == Publish(Instructions(ids[i]), UpdateSetupInstruction)
  {
    seq(|ids|, i requires 0 <= i < |ids| => Publish(Instructions(ids[i]), UpdateSetupInstruction))
  }

  // ---------------------------------------------------------------------------
  // Invariants: the schema bounds, the unique columns and the foreign keys

  /** Every table's ids lie below its next id. */
  ghost predicate TablesOk(db: Db)
  {
    db.devices.Valid() && db.setups.Valid() && db.playlists.Valid() && db.images.Valid() && db.videos.Valid()
  }

  ghost predicate DevicesOk(db: Db)
  {
    var rows := db.devices.rows;
    && db.devices.Valid()
    && (forall k | k in rows ::
          && DeviceTextOk(rows[k].name)
          && DeviceTextOk(rows[k].location)
          && (rows[k].setupId.Some? ==> rows[k].setupId.value in db.setups.rows))
    && (forall a, b | a in rows && b in rows && a != b :: rows[a].name != rows[b].name)
    && (forall a, b | a in rows && b in rows && a != b :: rows[a].apiKey != rows[b].apiKey)
  }

  ghost predicate SetupsOk(db: Db)
  {
    var rows := db.setups.rows;
    && db.setups.Valid()
    && (forall k | k in rows :: NameOk(rows[k].name))
    && (forall a, b | a in rows && b in rows && a != b :: rows[a].name != rows[b].name)
  }

  /** A stored playlist's times are valid HH:MM values with start before end. */
  ghost predicate PlaylistRowOk(p: Playlist)
  {
    && NameOk(p.name)
    && ScheduleOk(p.startTime, p.endTime, p.days)
    && Minutes(p.startTime) < Minutes(p.endTime)
  }

  ghost predicate PlaylistsOk(db: Db)
  {
    var rows := db.playlists.rows;
    && db.playlists.Valid()
    && (forall k | k in rows :: rows[k].setupId in db.setups.rows && PlaylistRowOk(rows[k]))
  }

  ghost predicate MediaOk(db: Db)
  {
    && db.images.Valid()
    && db.videos.Valid()
    && (forall k | k in db.images.rows ::
          var i := db.images.rows[k];
          i.playlistId in db.playlists.rows && ImageOk(ImageInput(i.url, i.duration)))
    && (forall k | k in db.videos.rows ::
          var v := db.videos.rows[k];
          v.playlistId in db.playlists.rows && VideoOk(v.url))
  }

  ghost predicate DbOk(db: Db)
  {
    DevicesOk(db) && SetupsOk(db) && PlaylistsOk(db) && MediaOk(db)
  }

  /** The stored activation-code counter, once present, stays inside the
      range from which codes are handed out. */
  ghost predicate CounterOk(c: Option<int>)
  {
    c.Some? ==> CodeMin + 1 <= c.value <= CodeMax - 1
  }

  ghost predicate Valid(st: State)
  {
    DbOk(st.db) && CounterOk(st.redis.counter)
  }

  // ---------------------------------------------------------------------------
  // Queries

  predicate DeviceNameTaken(db: Db, name: string)
  {
    exists k | k in db.devices.rows :: db.devices.rows[k].name == name
  }

  predicate ApiKeyTaken(db: Db, key: string)
  {
    exists k | k in db.devices.rows :: db.devices.rows[k].apiKey == key
  }

  predicate SetupNameTaken(db: Db, name: string)
  {
    exists k | k in db.setups.rows :: db.setups.rows[k].name == name
  }

  /** The ids of the devices linked to a setup, in ascending order (the rows
      of `setup.devices`). */
  function Linked(devices: Table<Device>, setup: int): (ids: seq<int>)
    requires devices.Valid()
    ensures forall k :: k in ids <==> k in devices.rows && devices.rows[k].setupId == Some(setup)
    ensures forall i, j :: 0 <= i < j < |ids| ==> ids[i] < ids[j]
  {
    LinkedBelow(devices.rows, setup, devices.next)
  }

  function LinkedBelow(rows: map<int, Device>, setup: int, hi: int): (ids: seq<int>)
    ensures forall k :: k in ids <==> 1 <= k < hi && k in rows && rows[k].setupId == Some(setup)
    ensures forall i, j :: 0 <= i < j < |ids| ==> ids[i] < ids[j]
    decreases hi
  {
    if hi <= 1 then []
    else
      var below := LinkedBelow(rows, setup, hi - 1);
      forall i | 0 <= i < |below|
        ensures below[i] < hi - 1
      {
        assert below[i] in below;
      }
      if hi - 1 in rows && rows[hi - 1].setupId == Some(setup) then below + [hi - 1] else below
  }
}
