/** The device handlers of routers/device.py: activating a device from an
    activation code, editing and deleting it, asking it for a snapshot, the
    presence bookkeeping of its instruction stream, and the first frame of the
    administrator's status stream. */
module Devices {
  import opened Outcomes
  import opened Tables
  import opened Schemas
  import opened Store

  // ---------------------------------------------------------------------------
  // create_device

  /** The channel an activating client listens on: its code, in decimal. */
  function CodeChannelOf(code: nat): Channel
  {
    CodeChannel(Decimal(code))
  }

  /** The api-key loop: draws keys until one is held by no device. The draws
      are given; one of them is assumed fresh, which is what makes the loop
      end. */
  function FreshKey(db: Db, draws: seq<string>): (key: string)
    requires exists i :: 0 <= i < |draws| && !ApiKeyTaken(db, draws[i])
    ensures !ApiKeyTaken(db, key)
    ensures exists i :: 0 <= i < |draws| && draws[i] == key
                         && forall j :: 0 <= j < i ==> ApiKeyTaken(db, draws[j])
    decreases |draws|
  {
    if !ApiKeyTaken(db, draws[0]) then draws[0]
    else
      var key := FreshKey(db, draws[1..]);
      ghost var i :| 0 <= i < |draws[1..]| && draws[1..][i] == key
                     && forall j :: 0 <= j < i ==> ApiKeyTaken(db, draws[1..][j]);
      assert draws[i + 1] == key;
      assert forall j :: 0 <= j < i + 1 ==> ApiKeyTaken(db, draws[j]) by {
        forall j | 0 <= j < i + 1
          ensures ApiKeyTaken(db, draws[j])
        {
          if j > 0 { assert draws[j] == draws[1..][j - 1]; }
        }
      }
      key
  }

  /** The row an activation stores: no setup (the request's setup_id is not
      copied), last seen now. */
  function NewDevice(data: DeviceInput, key: string, now: int): Device
  {
    Device(data.name, data.location, key, None, now)
  }

  /** POST /devices/: refused with 404 when nobody listens on the code's
      channel, then with 409 when the name is taken; otherwise one device is
      inserted and its name and api key are published on the code's channel.
      Returns the new state and the new device's id. */
  function CreateDevice(st: State, data: DeviceInput, draws: seq<string>, now: int): (r: Result<(State, int)>)
    requires st.db.devices.Valid()
    requires DeviceInputOk(data)
    requires exists i :: 0 <= i < |draws| && !ApiKeyTaken(st.db, draws[i])
    ensures Subscribers(st.redis, CodeChannelOf(data.code)) == 0 ==> r == Err(NoClientAwaiting(data.code))
    ensures (Subscribers(st.redis, CodeChannelOf(data.code)) != 0 && DeviceNameTaken(st.db, data.name))
              ==> r == Err(DeviceNameInUse(data.name))
    ensures r.Ok? <==> Subscribers(st.redis, CodeChannelOf(data.code)) != 0 && !DeviceNameTaken(st.db, data.name)
  {
    var channel := CodeChannelOf(data.code);
    if Subscribers(st.redis, channel) == 0 then Err(NoClientAwaiting(data.code))
    else if DeviceNameTaken(st.db, data.name) then Err(DeviceNameInUse(data.name))
    else
      var key := FreshKey(st.db, draws);
      var (devices, id) := Insert(st.db.devices, NewDevice(data, key, now));
      var redis := Emit(st.redis, [Publish(channel, Credentials(data.name, key))]);
      Ok((State(st.db.(devices := devices), redis), id))
  }

  /** A successful activation adds exactly one device, under a fresh id, with
      the requested name and location, no setup, and a key no other device
      holds; it publishes exactly one message, the credentials, on the code's
      channel; nothing else changes. */
  lemma CreateDeviceAcceptance(st: State, data: DeviceInput, draws: seq<string>, now: int)
    requires st.db.devices.Valid()
    requires DeviceInputOk(data)
    requires exists i :: 0 <= i < |draws| && !ApiKeyTaken(st.db, draws[i])
    requires CreateDevice(st, data, draws, now).Ok?
    ensures var (st', id) := CreateDevice(st, data, draws, now).value;
            var key := st'.db.devices.rows[id].apiKey;
            && id !in st.db.devices.rows
            && st'.db.devices.rows == st.db.devices.rows[id := Device(data.name, data.location, key, None, now)]
            && key in draws
            && (forall k | k in st.db.devices.rows :: st.db.devices.rows[k].apiKey != key)
            && st'.db == st.db.(devices := st'.db.devices)
            && st'.redis.log == st.redis.log + [Publish(CodeChannel(Decimal(data.code)), Credentials(data.name, key))]
            && st'.redis == st.redis.(log := st'.redis.log)
  {
  }

  /** The requested setup is ignored: an activated device is never linked. */
  lemma CreateDeviceIgnoresSetup(st: State, data: DeviceInput, draws: seq<string>, now: int)
    requires st.db.devices.Valid()
    requires DeviceInputOk(data) && data.setupId.Some?
    requires exists i :: 0 <= i < |draws| && !ApiKeyTaken(st.db, draws[i])
    requires CreateDevice(st, data, draws, now).Ok?
    ensures var (st', id) := CreateDevice(st, data, draws, now).value;
            st'.db.devices.rows[id].setupId == None
  {
  }

  lemma CreateDeviceKeepsValid(st: State, data: DeviceInput, draws: seq<string>, now: int)
    requires Valid(st)
    requires DeviceInputOk(data)
    requires exists i :: 0 <= i < |draws| && !ApiKeyTaken(st.db, draws[i])
    requires CreateDevice(st, data, draws, now).Ok?
    ensures Valid(CreateDevice(st, data, draws, now).value.0)
  {
    var (st', id) := CreateDevice(st, data, draws, now).value;
    var rows, rows' := st.db.devices.rows, st'.db.devices.rows;
    var key := FreshKey(st.db, draws);
    assert rows' == rows[id := Device(data.name, data.location, key, None, now)];
    forall a, b | a in rows' && b in rows' && a != b
      ensures rows'[a].name != rows'[b].name && rows'[a].apiKey != rows'[b].apiKey
    {
      if a == id {
        assert b in rows;
      } else if b == id {
        assert a in rows;
      }
    }
  }

  // ---------------------------------------------------------------------------
  // update_device_info

  /** The request nulls a NOT NULL column: the name or the location is
      present in the body with the value null. */
  predicate SetsNull(u: DeviceUpdate)
  {
    u.name == Given(None) || u.location == Given(None)
  }

  /** The name an update asks for, when it asks for a non-null one. */
  predicate AsksForName(u: DeviceUpdate)
  {
    u.name.Given? && u.name.value.Some?
  }

  /** A device row with the request's present fields copied in. */
  function Patch(d: Device, u: DeviceUpdate): (d': Device)
    requires !SetsNull(u)
    ensures d'.name == (if u.name.Given? then u.name.value.value else d.name)
    ensures d'.location == (if u.location.Given? then u.location.value.value else d.location)
    ensures d'.setupId == (if u.setupId.Given? then u.setupId.value else d.setupId)
    ensures d'.apiKey == d.apiKey && d'.lastSeen == d.lastSeen
    ensures u == DeviceUpdate(Unset, Unset, Unset) ==> d' == d
  {
    d.(name := if u.name.Given? then u.name.value.value else d.name,
       location := if u.location.Given? then u.location.value.value else d.location,
       setupId := if u.setupId.Given? then u.setupId.value else d.setupId)
  }

  /** PUT /devices/{id}: 404 for an unknown device; 409 when a requested name
      is held by any device, the device itself included; a present null name
      or location, or a setup id naming no setup, is rejected by the database
      at commit (500); otherwise the present fields are written. */
  function UpdateDeviceInfo(st: State, id: int, u: DeviceUpdate): (r: Result<State>)
    ensures id !in st.db.devices.rows ==> r == Err(DeviceNotFound(id))
    ensures (id in st.db.devices.rows && AsksForName(u) && DeviceNameTaken(st.db, u.name.value.value))
              ==> r == Err(DeviceNameInUse(u.name.value.value))
    ensures r.Ok? ==> r.value.redis == st.redis
  {
    var rows := st.db.devices.rows;
    if id !in rows then Err(DeviceNotFound(id))
    else if AsksForName(u) && DeviceNameTaken(st.db, u.name.value.value) then Err(DeviceNameInUse(u.name.value.value))
    else if SetsNull(u) then Err(IntegrityViolation)
    else if u.setupId.Given? && u.setupId.value.Some? && u.setupId.value.value !in st.db.setups.rows then Err(IntegrityViolation)
    else Ok(st.(db := st.db.(devices := Put(st.db.devices, id, Patch(rows[id], u)))))
  }

  /** The update is accepted exactly when the device exists, a requested name
      is free, no NOT NULL column is nulled, and a requested setup exists; it
      then changes only the present fields of that one device. */
  lemma UpdateDeviceInfoAcceptance(st: State, id: int, u: DeviceUpdate)
    ensures UpdateDeviceInfo(st, id, u).Ok? <==>
              && id in st.db.devices.rows
              && !(AsksForName(u) && DeviceNameTaken(st.db, u.name.value.value))
              && !SetsNull(u)
              && (u.setupId.Given? && u.setupId.value.Some? ==> u.setupId.value.value in st.db.setups.rows)
    ensures UpdateDeviceInfo(st, id, u).Ok? ==>
              var db' := UpdateDeviceInfo(st, id, u).value.db;
              var d, d' := st.db.devices.rows[id], db'.devices.rows[id];
              && db' == st.db.(devices := db'.devices)
              && db'.devices.rows.Keys == st.db.devices.rows.Keys
              && db'.devices.next == st.db.devices.next
              && (forall k | k in st.db.devices.rows && k != id :: db'.devices.rows[k] == st.db.devices.rows[k])
              && d'.name == (if u.name.Given? then u.name.value.value else d.name)
              && d'.location == (if u.location.Given? then u.location.value.value else d.location)
              && d'.setupId == (if u.setupId.Given? then u.setupId.value else d.setupId)
              && d'.apiKey == d.apiKey && d'.lastSeen == d.lastSeen
  {
  }

  /** Asking for the name the device already has is refused as a conflict. */
  lemma UpdateDeviceRefusesOwnName(st: State, id: int, u: DeviceUpdate)
    requires id in st.db.devices.rows
    requires u.name == Given(Some(st.db.devices.rows[id].name))
    ensures UpdateDeviceInfo(st, id, u) == Err(DeviceNameInUse(st.db.devices.rows[id].name))
  {
    assert st.db.devices.rows[id].name == u.name.value.value;
  }

  /** A rename cannot be repeated: once it has been applied, the same request
      finds the name taken. */
  lemma UpdateDeviceRenameNotRepeatable(st: State, id: int, u: DeviceUpdate)
    requires AsksForName(u)
    requires UpdateDeviceInfo(st, id, u).Ok?
    ensures UpdateDeviceInfo(UpdateDeviceInfo(st, id, u).value, id, u) == Err(DeviceNameInUse(u.name.value.value))
  {
    var st' := UpdateDeviceInfo(st, id, u).value;
    assert st'.db.devices.rows[id].name == u.name.value.value;
  }

  /** An empty request body leaves every row as it was. */
  lemma UpdateDeviceEmptyIsNoOp(st: State, id: int)
    requires id in st.db.devices.rows
    ensures UpdateDeviceInfo(st, id, DeviceUpdate(Unset, Unset, Unset)) == Ok(st)
  {
    var u := DeviceUpdate(Unset, Unset, Unset);
    assert Patch(st.db.devices.rows[id], u) == st.db.devices.rows[id];
    assert st.db.devices.rows[id := st.db.devices.rows[id]] == st.db.devices.rows;
  }

  lemma UpdateDeviceInfoKeepsValid(st: State, id: int, u: DeviceUpdate)
    requires Valid(st) && DeviceUpdateOk(u)
    requires UpdateDeviceInfo(st, id, u).Ok?
    ensures Valid(UpdateDeviceInfo(st, id, u).value)
  {
    var st' := UpdateDeviceInfo(st, id, u).value;
    var rows, rows' := st.db.devices.rows, st'.db.devices.rows;
    UpdateDeviceInfoAcceptance(st, id, u);
    forall a, b | a in rows' && b in rows' && a != b
      ensures rows'[a].name != rows'[b].name && rows'[a].apiKey != rows'[b].apiKey
    {
      if a == id && u.name.Given? {
        assert rows[b].name != u.name.value.value by { assert b in rows; }
      } else if b == id && u.name.Given? {
        assert rows[a].name != u.name.value.value by { assert a in rows; }
      }
    }
  }

  // ---------------------------------------------------------------------------
  // delete_device

  /** DELETE /devices/{id}: 404 for an unknown device, otherwise the row goes.
      The `online_devices` set and the subscriptions are left as they are. */
  function DeleteDevice(st: State, id: int): (r: Result<State>)
    ensures id !in st.db.devices.rows <==> r == Err(DeviceNotFound(id))
    ensures r.Ok? ==> r.value.db.devices.rows.Keys == st.db.devices.rows.Keys - {id}
    ensures r.Ok? ==> forall k | k in r.value.db.devices.rows :: r.value.db.devices.rows[k] == st.db.devices.rows[k]
    ensures r.Ok? ==> r.value.db == st.db.(devices := r.value.db.devices) && r.value.redis == st.redis
  {
    if id !in st.db.devices.rows then Err(DeviceNotFound(id))
    else Ok(st.(db := st.db.(devices := Remove(st.db.devices, {id}))))
  }

  /** Nothing refers to a device, so deleting one keeps every table consistent. */
  lemma DeleteDeviceKeepsValid(st: State, id: int)
    requires Valid(st)
    requires DeleteDevice(st, id).Ok?
    ensures Valid(DeleteDevice(st, id).value)
  {
  }

  /** The id of a deleted device is not handed out again: the next activation
      receives a different one. */
  lemma DeletedIdNotReused(st: State, id: int, data: DeviceInput, draws: seq<string>, now: int)
    requires st.db.devices.Valid()
    requires DeleteDevice(st, id).Ok?
    requires DeviceInputOk(data)
    requires exists i :: 0 <= i < |draws| && !ApiKeyTaken(DeleteDevice(st, id).value.db, draws[i])
    requires CreateDevice(DeleteDevice(st, id).value, data, draws, now).Ok?
    ensures CreateDevice(DeleteDevice(st, id).value, data, draws, now).value.1 != id
  {
  }

  /** A deleted device that was online stays listed in `online_devices`. */
  lemma DeleteDeviceLeavesPresence(st: State, id: int)
    requires id in st.redis.online
    requires DeleteDevice(st, id).Ok?
    ensures id in DeleteDevice(st, id).value.redis.online
    ensures id !in DeleteDevice(st, id).value.db.devices.rows
  {
  }

  // ---------------------------------------------------------------------------
  // send_snapshot_instruction

  /** PUT /devices/{id}/instructions/take-snapshot: 404 for an unknown device,
      409 when nobody listens on its instruction channel, otherwise one
      snapshot instruction carrying the upload url on that channel. */
  function SendSnapshot(st: State, id: int, data: SnapshotInput): (r: Result<State>)
    ensures id !in st.db.devices.rows ==> r == Err(DeviceNotFound(id))
    ensures id in st.db.devices.rows && Subscribers(st.redis, Instructions(id)) == 0 ==> r == Err(DeviceOffline(id))
    ensures r.Ok? <==> id in st.db.devices.rows && Subscribers(st.redis, Instructions(id)) > 0
    ensures r.Ok? ==> r.value == st.(redis := st.redis.(log := st.redis.log + [Publish(Instructions(id), Snapshot(data.url))]))
  {
    if id !in st.db.devices.rows then Err(DeviceNotFound(id))
    else if Subscribers(st.redis, Instructions(id)) == 0 then Err(DeviceOffline(id))
    else Ok(st.(redis := Emit(st.redis, [Publish(Instructions(id), Snapshot(data.url))])))
  }

  // ---------------------------------------------------------------------------
  // GET /devices/me/instructions: presence effects

  /** Opening the stream of an authenticated device: its last-seen time is set,
      an online status is published on `devices:status`, its id is added to
      `online_devices`, and one subscription to its instruction channel is
      taken. */
  function OpenInstructionStream(st: State, id: int, now: int): (st': State)
    requires id in st.db.devices.rows
    ensures st'.redis.online == st.redis.online + {id}
    ensures st'.redis.log == st.redis.log + [Publish(DeviceStatus, Presence(id, true))]
    ensures Subscribers(st'.redis, Instructions(id)) == Subscribers(st.redis, Instructions(id)) + 1
    ensures forall c :: c != Instructions(id) ==> Subscribers(st'.redis, c) == Subscribers(st.redis, c)
    ensures st'.redis.counter == st.redis.counter
    ensures st'.db.devices.rows.Keys == st.db.devices.rows.Keys
    ensures st'.db.devices.rows[id] == st.db.devices.rows[id].(lastSeen := now)
  {
    var d := st.db.devices.rows[id];
    var db := st.db.(devices := Put(st.db.devices, id, d.(lastSeen := now)));
    var redis := Emit(st.redis, [Publish(DeviceStatus, Presence(id, true))]);
    var redis := Subscribe(redis.(online := redis.online + {id}), Instructions(id));
    State(db, redis)
  }

  /** Closing the stream (the listener cancelled, then the generator's
      cleanup): the id leaves `online_devices`, an offline status is
      published, the subscription is released, and the last-seen time is set
      again when the row still exists. */
  function CloseInstructionStream(st: State, id: int, now: int): (st': State)
    ensures st'.redis.online == st.redis.online - {id}
    ensures st'.redis.log == st.redis.log + [Publish(DeviceStatus, Presence(id, false))]
    ensures Subscribers(st.redis, Instructions(id)) > 0 ==>
              Subscribers(st'.redis, Instructions(id)) == Subscribers(st.redis, Instructions(id)) - 1
    ensures forall c :: c != Instructions(id) ==> Subscribers(st'.redis, c) == Subscribers(st.redis, c)
    ensures st'.redis.counter == st.redis.counter
    ensures st'.db.devices.rows.Keys == st.db.devices.rows.Keys
    ensures id in st.db.devices.rows ==> st'.db.devices.rows[id] == st.db.devices.rows[id].(lastSeen := now)
  {
    var db := if id in st.db.devices.rows
              then st.db.(devices := Put(st.db.devices, id, st.db.devices.rows[id].(lastSeen := now)))
              else st.db;
    var redis := Emit(st.redis.(online := st.redis.online - {id}), [Publish(DeviceStatus, Presence(id, false))]);
    State(db, Unsubscribe(redis, Instructions(id)))
  }

  /** Only the last-seen column moves, so opening the stream keeps the state
      valid. */
  lemma OpenInstructionStreamKeepsValid(st: State, id: int, now: int)
    requires Valid(st) && id in st.db.devices.rows
    ensures Valid(OpenInstructionStream(st, id, now))
  {
    LastSeenKeepsDbOk(st.db, id, now);
  }

  lemma CloseInstructionStreamKeepsValid(st: State, id: int, now: int)
    requires Valid(st)
    ensures Valid(CloseInstructionStream(st, id, now))
  {
    if id in st.db.devices.rows {
      LastSeenKeepsDbOk(st.db, id, now);
    }
  }

  lemma LastSeenKeepsDbOk(db: Db, id: int, now: int)
    requires DbOk(db) && id in db.devices.rows
    ensures DbOk(db.(devices := Put(db.devices, id, db.devices.rows[id].(lastSeen := now))))
  {
    var rows := db.devices.rows;
    var rows' := rows[id := rows[id].(lastSeen := now)];
    forall k | k in rows'
      ensures rows'[k].name == rows[k].name && rows'[k].location == rows[k].location
      ensures rows'[k].apiKey == rows[k].apiKey && rows'[k].setupId == rows[k].setupId
    {
    }
  }

  /** A session that opens and closes hands back its subscription, leaves
      the device offline, and leaves exactly an online and an offline status
      in the log. */
  lemma SessionRoundTrip(st: State, id: int, now: int, later: int)
    requires id in st.db.devices.rows
    ensures var st' := CloseInstructionStream(OpenInstructionStream(st, id, now), id, later);
            && (forall c :: Subscribers(st'.redis, c) == Subscribers(st.redis, c))
            && st'.redis.online == st.redis.online - {id}
            && st'.redis.log == st.redis.log + [Publish(DeviceStatus, Presence(id, true)), Publish(DeviceStatus, Presence(id, false))]
            && st'.db.devices.rows == st.db.devices.rows[id := st.db.devices.rows[id].(lastSeen := later)]
  {
    var st1 := OpenInstructionStream(st, id, now);
    var st' := CloseInstructionStream(st1, id, later);
    assert st1.db.devices.rows == st.db.devices.rows[id := st.db.devices.rows[id].(lastSeen := now)];
    assert st'.db.devices.rows == st1.db.devices.rows[id := st1.db.devices.rows[id].(lastSeen := later)];
  }

  /** Adding to `online_devices` is idempotent: a second session of an online
      device leaves the set as one session does. */
  lemma OpenTwiceSameOnline(st: State, id: int, now: int, later: int)
    requires id in st.db.devices.rows
    ensures OpenInstructionStream(OpenInstructionStream(st, id, now), id, later).redis.online
         == OpenInstructionStream(st, id, now).redis.online
  {
  }

  /** Presence is not counted per session: when one of two sessions of a
      device closes, the device is listed offline although it still listens
      and still accepts snapshot instructions. */
  lemma SecondSessionLosesPresence(st: State, id: int, now: int, data: SnapshotInput)
    requires id in st.db.devices.rows
    ensures var st' := CloseInstructionStream(OpenInstructionStream(OpenInstructionStream(st, id, now), id, now), id, now);
            && id !in st'.redis.online
            && Subscribers(st'.redis, Instructions(id)) == Subscribers(st.redis, Instructions(id)) + 1
            && SendSnapshot(st', id, data).Ok?
  {
  }

  /** A snapshot request succeeds while the device's stream is open. */
  lemma SnapshotReachesOpenStream(st: State, id: int, now: int, data: SnapshotInput)
    requires id in st.db.devices.rows
    ensures SendSnapshot(OpenInstructionStream(st, id, now), id, data).Ok?
  {
  }

  /** Once a device's only session has closed, a snapshot request is refused
      as offline. */
  lemma SnapshotRefusedAfterClose(st: State, id: int, now: int, later: int, data: SnapshotInput)
    requires id in st.db.devices.rows
    requires Subscribers(st.redis, Instructions(id)) == 0
    ensures SendSnapshot(CloseInstructionStream(OpenInstructionStream(st, id, now), id, later), id, data)
         == Err(DeviceOffline(id))
  {
    SessionRoundTrip(st, id, now, later);
  }

  // ---------------------------------------------------------------------------
  // GET /devices/status: the administrator's status stream

  /** A frame of the status stream: the current `online_devices` membership
      (sent first), a relayed status update, or a heartbeat. */
  datatype StatusFrame = OnlineNow(ids: set<int>) | StatusUpdate(message: Message) | StatusHeartbeat

  /** Opening the status stream takes a subscription to `devices:status` and
      sends the current membership before anything queued. */
  function StatusStream(st: State, queued: seq<StatusFrame>): (r: (Redis, seq<StatusFrame>))
    ensures |r.1| == |queued| + 1
    ensures r.1[0] == OnlineNow(st.redis.online)
    ensures r.1[1..] == queued
    ensures Subscribers(r.0, DeviceStatus) == Subscribers(st.redis, DeviceStatus) + 1
    ensures forall c :: c != DeviceStatus ==> Subscribers(r.0, c) == Subscribers(st.redis, c)
    ensures r.0.online == st.redis.online && r.0.log == st.redis.log
  {
    (Subscribe(st.redis, DeviceStatus), [OnlineNow(st.redis.online)] + queued)
  }

  /** An administrator who opens the status stream sees a device listed while
      its instruction stream is open and not once it has closed. */
  lemma StatusShowsPresence(st: State, id: int, now: int, later: int, queued: seq<StatusFrame>)
    requires id in st.db.devices.rows
    ensures var open := OpenInstructionStream(st, id, now);
            id in StatusStream(open, queued).1[0].ids
    ensures var closed := CloseInstructionStream(OpenInstructionStream(st, id, now), id, later);
            id !in StatusStream(closed, queued).1[0].ids
  {
  }
}
